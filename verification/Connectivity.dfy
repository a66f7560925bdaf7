/** Windmil conversion: from a tree of parent guids to a graph of nodes and links.

    Every component of a Windmil export names its parent by guid.  GridLAB-D wants lines
    between named nodes instead, so the pass walks the component list, writes the `from`,
    `to` and `parent` names, and appends a node wherever a link feeds a component directly.
    The main theorem says exactly when the chain of links above every component survives. */
module Connectivity {
  import opened Prelude

  /** The classes obConvert gives out. */
  datatype Class =
    | OverheadLine | UndergroundLine | Regulator | Transformer | Switch | Fuse
    | GridNode
    | Capacitor | ZIPload | DieselDg | Load
    | Unlisted

  /** The three lists fromToable, nodable and parentable. */
  datatype Kind = Link | Node | Leaf | Other

  function KindOf(c: Class): Kind {
    match c
    case Capacitor | ZIPload | DieselDg | Load => Leaf
    case OverheadLine | UndergroundLine | Regulator | Transformer | Switch | Fuse => Link
    case GridNode => Node
    case Unlisted => Other
  }

  /** The lists as the source has them. */
  lemma KindsAre(c: Class)
    ensures KindOf(c) == Leaf <==> c in {Capacitor, ZIPload, DieselDg, Load}
    ensures KindOf(c) == Link <==> c in {OverheadLine, UndergroundLine, Regulator, Transformer, Switch, Fuse}
    ensures KindOf(c) == Node <==> c == GridNode
  {
  }

  /** The nominal voltage of the feeder, whatever it is. */
  const NOMINAL_VOLTAGE: string

  /** A component dict; an absent key is None. */
  datatype Comp = Comp(class_: Class, name: string, phases: Option<string>, latitude: string, longitude: string,
                       nominalVoltage: Option<string>, guid: Option<string>, parentGuid: string,
                       from_: Option<string>, to: Option<string>, parent: Option<string>)
  {
    function Kind(): Kind { KindOf(class_) }
  }

  // ------------------------------------------------------------------ lookups

  /** getByGuid: the first candidate. */
  function FindGuid(cs: seq<Comp>, guid: string): (r: Option<nat>)
    ensures r.Some? ==> r.value < |cs| && cs[r.value].guid == Some(guid)
    ensures r.None? ==> forall j :: 0 <= j < |cs| ==> cs[j].guid != Some(guid)
  {
    if cs == [] then None
    else if cs[0].guid == Some(guid) then Some(0)
    else match FindGuid(cs[1..], guid) case None => None case Some(j) => Some(j + 1)
  }

  /** getByName: the first candidate. */
  function FindName(cs: seq<Comp>, name: string): (r: Option<nat>)
    ensures r.Some? ==> r.value < |cs| && cs[r.value].name == name
    ensures r.None? ==> forall j :: 0 <= j < |cs| ==> cs[j].name != name
  {
    if cs == [] then None
    else if cs[0].name == name then Some(0)
    else match FindName(cs[1..], name) case None => None case Some(j) => Some(j + 1)
  }

  ghost predicate DistinctGuids(cs: seq<Comp>) {
    forall i, j :: 0 <= i < j < |cs| && cs[i].guid.Some? ==> cs[i].guid != cs[j].guid
  }

  // ------------------------------------------------------------------ phases

  function Insert(c: char, s: string): string {
    if s == "" || c < s[0] then [c] + s
    else if c == s[0] then s
    else [s[0]] + Insert(c, s[1..])
  }

  /** `''.join(sorted(set(s)))`. */
  function SortedSet(s: string): string {
    if s == "" then "" else Insert(s[0], SortedSet(s[1..]))
  }

  function PhaseMerge(a: string, b: string): string {
    SortedSet(a + b)
  }

  /** a has all the phases of b. */
  ghost predicate Covers(a: Option<string>, b: Option<string>) {
    b.Some? ==> a.Some? && forall c :: c in b.value ==> c in a.value
  }

  lemma {:induction false} InsertAdds(c: char, s: string)
    ensures forall d :: d in Insert(c, s) <==> d == c || d in s
  {
    if s == "" || c <= s[0] {
    } else {
      InsertAdds(c, s[1..]);
      assert s == [s[0]] + s[1..];
    }
  }

  lemma {:induction false} SortedSetKeeps(s: string)
    ensures forall d :: d in SortedSet(s) <==> d in s
  {
    if s != "" {
      SortedSetKeeps(s[1..]);
      InsertAdds(s[0], SortedSet(s[1..]));
      assert s == [s[0]] + s[1..];
    }
  }

  /** Strictly ascending, so without repeats. */
  ghost predicate Ascending(s: string) {
    forall i, j :: 0 <= i < j < |s| ==> s[i] < s[j]
  }

  lemma {:induction false} InsertAscends(c: char, s: string)
    requires Ascending(s)
    ensures Ascending(Insert(c, s))
  {
    if s != "" && c > s[0] {
      var rest := Insert(c, s[1..]);
      InsertAscends(c, s[1..]);
      InsertAdds(c, s[1..]);
      forall i | 0 <= i < |rest|
        ensures s[0] < rest[i]
      {
        assert rest[i] in rest;
      }
    }
  }

  /** What a merge of phases gives: every letter of either, in order, once. */
  lemma {:induction false} PhaseMergeIs(a: string, b: string)
    ensures Ascending(PhaseMerge(a, b)) && forall d :: d in PhaseMerge(a, b) <==> d in a || d in b
  {
    SortedSetKeeps(a + b);
    SortedSetAscends(a + b);
  }

  lemma {:induction false} SortedSetAscends(s: string)
    ensures Ascending(SortedSet(s))
  {
    if s != "" {
      SortedSetAscends(s[1..]);
      InsertAscends(s[0], SortedSet(s[1..]));
    }
  }

  // ------------------------------------------------------------------ one component

  function ParentOf(cs: seq<Comp>, i: nat): Option<nat>
    requires i < |cs|
  {
    FindGuid(cs, cs[i].parentGuid)
  }

  function NewNode(comp: Comp, parent: Comp): Comp {
    Comp(GridNode, "node" + comp.name + parent.name, comp.phases, comp.latitude, comp.longitude,
         Some(NOMINAL_VOLTAGE), None, "", None, None, None)
  }

  function Attach(comp: Comp, name: Option<string>): Comp {
    if comp.Kind().Link? then comp.(from_ := name) else comp.(parent := name)
  }

  /** The node a link feeds takes over the phases of what hangs below it. */
  function MergePhases(cs: seq<Comp>, name: string, phases: Option<string>): (r: seq<Comp>)
    ensures |r| == |cs|
    ensures forall j :: 0 <= j < |cs| ==> r[j] == cs[j].(phases := r[j].phases)
    ensures forall j :: 0 <= j < |cs| ==> (r[j].phases.Some? <==> cs[j].phases.Some?)
  {
    match FindName(cs, name)
    case None => cs
    case Some(m) =>
      if cs[m].phases.None? || phases.None? then cs
      else cs[m := cs[m].(phases := Some(PhaseMerge(cs[m].phases.value, phases.value)))]
  }

  /** The first component of this name is there and has phases. */
  predicate HasPhases(cs: seq<Comp>, name: string) {
    FindName(cs, name).Some? && cs[FindName(cs, name).value].phases.Some?
  }

  /** Is component i a link or leaf below a link? */
  predicate IsBelowLink(cs: seq<Comp>, i: nat)
    requires i < |cs|
  {
    && cs[i].guid.Some? && ParentOf(cs, i).Some? && cs[ParentOf(cs, i).value].Kind().Link?
    && (cs[i].Kind().Link? || cs[i].Kind().Leaf?)
  }

  /** The KeyError of lines 823, 827, 840 and 844: phases are read that are not there. */
  predicate Raises(cs: seq<Comp>, i: nat)
    requires i < |cs|
  {
    && IsBelowLink(cs, i)
    && var to := cs[ParentOf(cs, i).value].to;
       cs[i].phases.None? || (to.Some? && !HasPhases(cs, to.value))
  }

  /** The list when the KeyError is raised: the name has been written if there is one. */
  function Aborted(cs: seq<Comp>, i: nat): seq<Comp>
    requires i < |cs| && IsBelowLink(cs, i)
  {
    var to := cs[ParentOf(cs, i).value].to;
    if to.Some? then cs[i := Attach(cs[i], to)] else cs
  }

  /** The effect of fixCompConnectivity on the list, where it raises nothing. */
  function Fix(cs: seq<Comp>, i: nat): seq<Comp>
    requires i < |cs|
  {
    var comp := cs[i];
    if comp.guid.None? || ParentOf(cs, i).None? then cs else
    var p := ParentOf(cs, i).value;
    match (comp.Kind(), cs[p].Kind())
    case (Leaf, Node) => cs[i := Attach(comp, Some(cs[p].name))]
    case (Link, Node) => cs[i := Attach(comp, Some(cs[p].name))]
    case (Leaf, Link) => FixBelowLink(cs, i, p)
    case (Link, Link) => FixBelowLink(cs, i, p)
    case (Node, Link) => cs[p := cs[p].(to := Some(comp.name))]
    case _ => cs
  }

  function FixBelowLink(cs: seq<Comp>, i: nat, p: nat): seq<Comp>
    requires i < |cs| && p < |cs|
  {
    if cs[p].to.Some? then
      MergePhases(cs[i := Attach(cs[i], cs[p].to)], cs[p].to.value, cs[i].phases)
    else
      var node := NewNode(cs[i], cs[p]);
      var cs' := cs[p := cs[p].(to := Some(node.name))];
      cs'[i := Attach(cs'[i], Some(node.name))] + [node]
  }

  /** Processing the first k components in list order, as far as nothing is raised. */
  function Run(cs: seq<Comp>, k: nat): (r: seq<Comp>)
    ensures |r| >= |cs|
  {
    if k == 0 then cs
    else
      var r := Run(cs, k - 1);
      if k - 1 < |r| then Fix(r, k - 1) else r
  }

  /** None of the first k components raises. */
  ghost predicate EndsBefore(cs: seq<Comp>, k: nat)
    requires k <= |cs|
  {
    forall j :: 0 <= j < k ==> !Raises(Run(cs, j), j)
  }

  /** What is left when the first component that raises has done so. */
  ghost predicate RaisedAt(cs: seq<Comp>, r: seq<Comp>) {
    exists j :: 0 <= j < |cs| && EndsBefore(cs, j) && Raises(Run(cs, j), j) && r == Aborted(Run(cs, j), j)
  }

  lemma SameNames(cs: seq<Comp>, i: nat, c: Comp, name: string)
    requires i < |cs| && c.name == cs[i].name
    ensures FindName(cs[i := c], name) == FindName(cs, name)
  {
    if i > 0 && cs[0].name != name {
      SameNames(cs[1..], i - 1, c, name);
      assert cs[i := c][1..] == cs[1..][i - 1 := c];
    } else if i == 0 {
      assert cs[i := c][1..] == cs[1..];
    }
  }

  class Converter {
    var comps: seq<Comp>

    /** Lines 773-857: None for the KeyError, otherwise whether the component was connected. */
    method FixCompConnectivity(i: nat) returns (done: Option<bool>)
      requires i < |comps| && DistinctGuids(comps)
      modifies this
      ensures done.None? <==> old(Raises(comps, i))
      ensures comps == if done.None? then old(Aborted(comps, i)) else old(Fix(comps, i))
      ensures done == Some(false) ==> comps == old(comps)
    {
      hide PhaseMerge;
      var comp := comps[i];
      if comp.guid.None? {
        return Some(false);
      }
      var thing := FindGuid(comps, comp.guid.value);
      var parentType := None;
      var above := FindGuid(comps, comps[thing.value].parentGuid);
      if above.Some? {
        parentType := Some(comps[above.value].Kind());
      }
      var parent := FindGuid(comps, comp.parentGuid);
      assert thing.value == i;
      if comp.Kind().Leaf? && parentType == Some(Node) {
        comps := comps[i := comp.(parent := Some(comps[parent.value].name))];
      } else if comp.Kind().Link? && parentType == Some(Node) {
        comps := comps[i := comp.(from_ := Some(comps[parent.value].name))];
      } else if comp.Kind().Leaf? && parentType == Some(Link) {
        var p := parent.value;
        var to := comps[p].to;
        if to.Some? {
          SameNames(comps, i, comp.(parent := to), to.value);
          comps := comps[i := comp.(parent := to)];
          var merged := MergeInto(to.value, comp.phases);
          if !merged {
            return None;
          }
        } else {
          if comp.phases.None? {
            return None;
          }
          var newNode := NewNode(comp, comps[p]);
          comps := comps + [newNode];
          comps := comps[p := comps[p].(to := Some(newNode.name))];
          comps := comps[i := comps[i].(parent := Some(newNode.name))];
        }
      } else if comp.Kind().Link? && parentType == Some(Link) {
        var p := parent.value;
        var to := comps[p].to;
        if to.Some? {
          SameNames(comps, i, comp.(from_ := to), to.value);
          comps := comps[i := comp.(from_ := to)];
          var merged := MergeInto(to.value, comp.phases);
          if !merged {
            return None;
          }
        } else {
          if comp.phases.None? {
            return None;
          }
          var newNode := NewNode(comp, comps[p]);
          comps := comps + [newNode];
          comps := comps[p := comps[p].(to := Some(newNode.name))];
          comps := comps[i := comps[i].(from_ := Some(newNode.name))];
        }
      } else if comp.Kind().Node? && parentType == Some(Link) {
        var p := parent.value;
        comps := comps[p := comps[p].(to := Some(comp.name))];
      } else {
        return Some(false);
      }
      return Some(true);
    }

    /** Lines 822-823 and 839-840; false for the KeyError. */
    method MergeInto(name: string, phases: Option<string>) returns (merged: bool)
      modifies this
      ensures merged <==> old(HasPhases(comps, name)) && phases.Some?
      ensures comps == old(MergePhases(comps, name, phases))
      ensures merged ==>
                exists m, merge :: 0 <= m < |comps| && FindName(old(comps), name) == Some(m)
                                   && comps == old(comps)[m := old(comps)[m].(phases := Some(merge))] && Ascending(merge)
                                   && forall c :: c in merge <==> c in old(comps)[m].phases.value || c in phases.value
    {
      hide PhaseMerge;
      var inter := FindName(comps, name);
      if inter.None? || comps[inter.value].phases.None? || phases.None? {
        return false;
      }
      var node := comps[inter.value];
      PhaseMergeIs(node.phases.value, phases.value);
      comps := comps[inter.value := node.(phases := Some(PhaseMerge(node.phases.value, phases.value)))];
      return true;
    }

    /** Lines 860-861: the list grows while it is walked. */
    method FixConnectivity() returns (raised: bool)
      requires DistinctGuids(comps)
      modifies this
      ensures raised <==> !EndsBefore(old(comps), |old(comps)|)
      ensures !raised ==> comps == Run(old(comps), |old(comps)|)
      ensures raised ==> RaisedAt(old(comps), comps)
      ensures !raised && Bare(old(comps)) ==>
                forall m :: |old(comps)| <= m < |comps| ==> IsMadeUp(old(comps), comps[m])
      ensures !raised && Converted(old(comps)) ==>
                forall m :: 0 <= m < |comps| ==> PhasesMerged(old(comps), comps, m)
    {
      hide Fix, Aborted, PhasesMerged, Converted, MadeUpFor, Bare;
      ghost var n := |comps|;
      var i := 0;
      while i < |comps|
        invariant n <= |comps| && i <= |comps|
        invariant DistinctGuids(comps)
        invariant forall j :: n <= j < |comps| ==> comps[j].guid.None?
        invariant EndsBefore(old(comps), if i <= n then i else n)
        invariant comps == Run(old(comps), if i <= n then i else n)
        decreases |comps| - i + (if i < n then 2 * (n - i) else 0)
      {
        FixKeepsSkeleton(comps, i);
        if i >= n { MadeUpStays(comps, i); }
        var done := FixCompConnectivity(i);
        if done.None? {
          return true;
        }
        i := i + 1;
      }
      if Bare(old(comps)) {
        forall m | |old(comps)| <= m < |comps|
          ensures IsMadeUp(old(comps), comps[m])
        {
          var j, p := AppendedAreMadeUp(old(comps), n, m);
        }
      }
      if Converted(old(comps)) {
        forall m | 0 <= m < |comps|
          ensures PhasesMerged(old(comps), comps, m)
        {
          PhasesOfResult(old(comps), m);
        }
      }
      return false;
    }
  }

  lemma MadeUpStays(cs: seq<Comp>, i: nat)
    requires i < |cs| && cs[i].guid.None?
    ensures Fix(cs, i) == cs && !Raises(cs, i)
  {
  }

  /** Identity and class of the listed components; only connectivity and phases may differ. */
  ghost predicate SameSkeleton(cs: seq<Comp>, r: seq<Comp>) {
    && |cs| <= |r|
    && forall j :: 0 <= j < |cs| ==>
                     && r[j].guid == cs[j].guid
                     && r[j].parentGuid == cs[j].parentGuid
                     && r[j].name == cs[j].name
                     && r[j].class_ == cs[j].class_
  }

  lemma FixBelowLinkKeepsSkeleton(cs: seq<Comp>, i: nat, p: nat)
    requires i < |cs| && p < |cs|
    ensures SameSkeleton(cs, FixBelowLink(cs, i, p)) && |FixBelowLink(cs, i, p)| <= |cs| + 1
    ensures forall j :: |cs| <= j < |FixBelowLink(cs, i, p)| ==> FixBelowLink(cs, i, p)[j].guid.None?
  {
  }

  lemma FixKeepsSkeleton(cs: seq<Comp>, i: nat)
    requires i < |cs|
    ensures SameSkeleton(cs, Fix(cs, i)) && |Fix(cs, i)| <= |cs| + 1
    ensures forall j :: |cs| <= j < |Fix(cs, i)| ==> Fix(cs, i)[j].guid.None?
  {
    if cs[i].guid.Some? && ParentOf(cs, i).Some? {
      var p := ParentOf(cs, i).value;
      if cs[p].Kind().Link? && (cs[i].Kind().Link? || cs[i].Kind().Leaf?) {
        FixBelowLinkKeepsSkeleton(cs, i, p);
      }
    }
  }

  // ------------------------------------------------------------------ the result in closed form

  ghost predicate ChildOf(o: seq<Comp>, i: nat, p: nat) {
    i < |o| && p < |o| && ParentOf(o, i) == Some(p)
  }

  function NewName(o: seq<Comp>, i: nat, p: nat): string
    requires i < |o| && p < |o|
  {
    NewNode(o[i], o[p]).name
  }

  /** No connectivity yet. */
  ghost predicate Bare(o: seq<Comp>) {
    forall i :: 0 <= i < |o| ==> o[i].guid.Some? && o[i].from_.None? && o[i].to.None? && o[i].parent.None?
  }

  ghost predicate UniqueNames(o: seq<Comp>) {
    forall i, j :: 0 <= i < j < |o| ==> o[i].name != o[j].name
  }

  /** The names made up for new nodes are nobody's name ... */
  ghost predicate NewNamesFresh(o: seq<Comp>) {
    forall i: nat, p: nat, m: nat :: ChildOf(o, i, p) && m < |o| ==> NewName(o, i, p) != o[m].name
  }

  /** ... and differ between links. */
  ghost predicate NewNamesApart(o: seq<Comp>) {
    forall i: nat, p: nat, j: nat, q: nat ::
      ChildOf(o, i, p) && ChildOf(o, j, q) && NewName(o, i, p) == NewName(o, j, q) ==> p == q
  }

  /** No two names clash, among the components or with the names the pass makes up.  This is an
      assumption: obConvert compares names before it replaces their dots, and nothing keeps a
      component from being called 'node' and so on. */
  ghost predicate NamesApart(o: seq<Comp>) {
    UniqueNames(o) && NewNamesFresh(o) && NewNamesApart(o)
  }

  /** obConvert gives phases to everything but motors and generators. */
  ghost predicate PhasesDelivered(o: seq<Comp>) {
    forall i :: 0 <= i < |o| && o[i].phases.None? ==> o[i].class_.ZIPload? || o[i].class_.DieselDg?
  }

  /** Components with guids of their own that are not connected yet, and names that do not clash. */
  ghost predicate Converted(o: seq<Comp>) {
    DistinctGuids(o) && Bare(o) && PhasesDelivered(o) && NamesApart(o)
  }

  /** The `to` of link l once the first k components are done: the last node child so far,
      or else the node made up for the first other child. */
  function ToAt(o: seq<Comp>, l: nat, k: nat): Option<string>
    requires l < |o| && k <= |o|
  {
    if k == 0 then None
    else
      var before, j := ToAt(o, l, k - 1), k - 1;
      if ParentOf(o, j) != Some(l) || !o[l].Kind().Link? then before
      else if o[j].Kind().Node? then Some(o[j].name)
      else if o[j].Kind() != Other && before.None? then Some(NewName(o, j, l))
      else before
  }

  /** The node name a link or leaf j is attached to. */
  function EntryAt(o: seq<Comp>, j: nat): Option<string>
    requires j < |o|
  {
    var p := ParentOf(o, j);
    if p.None? then None
    else if o[p.value].Kind().Node? then Some(o[p.value].name)
    else if o[p.value].Kind().Link? then ToAt(o, p.value, j + 1)
    else None
  }

  function Expected(o: seq<Comp>, k: nat, i: nat, phases: Option<string>): Comp
    requires k <= |o| && i < |o|
  {
    o[i].(phases := phases,
          to := ToAt(o, i, k),
          from_ := if i < k && o[i].Kind().Link? then EntryAt(o, i) else None,
          parent := if i < k && o[i].Kind().Leaf? then EntryAt(o, i) else None)
  }

  ghost predicate MadeUp(o: seq<Comp>, c: Comp) {
    && c.Kind().Node? && c.guid.None? && c.from_.None? && c.to.None? && c.parent.None?
    && exists j: nat, p: nat :: ChildOf(o, j, p) && c.name == NewName(o, j, p)
  }

  ghost predicate NodeNamed(s: seq<Comp>, name: string) {
    exists m :: 0 <= m < |s| && s[m].name == name && s[m].Kind().Node?
  }

  ghost predicate FeedsNode(o: seq<Comp>, s: seq<Comp>, k: nat, l: nat)
    requires k <= |o| && l < |o|
  {
    ToAt(o, l, k).Some? ==> NodeNamed(s, ToAt(o, l, k).value)
  }

  ghost predicate Progress(o: seq<Comp>, s: seq<Comp>, k: nat)
    requires k <= |o|
  {
    && |o| <= |s|
    && (forall i :: 0 <= i < |o| ==> s[i] == Expected(o, k, i, s[i].phases))
    && (forall i :: |o| <= i < |s| ==> MadeUp(o, s[i]))
    && (forall l :: 0 <= l < |o| ==> FeedsNode(o, s, k, l))
  }

  lemma {:induction false} FindGuidSame(o: seq<Comp>, s: seq<Comp>, guid: string)
    requires |o| <= |s| && forall i :: 0 <= i < |o| ==> s[i].guid == o[i].guid
    requires forall i :: |o| <= i < |s| ==> s[i].guid.None?
    ensures FindGuid(s, guid) == FindGuid(o, guid)
  {
    if o == [] {
      assert FindGuid(s, guid).None?;
    } else if o[0].guid != Some(guid) {
      FindGuidSame(o[1..], s[1..], guid);
    }
  }

  lemma StepParent(o: seq<Comp>, s: seq<Comp>, k: nat)
    requires k < |o| && Bare(o) && Progress(o, s, k)
    ensures ParentOf(s, k) == ParentOf(o, k)
  {
    FindGuidSame(o, s, o[k].parentGuid);
  }

  lemma Step(o: seq<Comp>, s: seq<Comp>, k: nat)
    requires k < |o| && Bare(o) && Progress(o, s, k)
    ensures Progress(o, Fix(s, k), k + 1)
  {
    StepParent(o, s, k);
    var r := Fix(s, k);
    FixKeepsSkeleton(s, k);
    forall i | 0 <= i < |o|
      ensures r[i] == Expected(o, k + 1, i, r[i].phases)
    {
      StepAt(o, s, k, i);
    }
    forall i | |o| <= i < |r|
      ensures MadeUp(o, r[i])
    {
      StepMadeUp(o, s, k, i);
    }
    var next := k + 1;
    forall l | 0 <= l < |o|
      ensures FeedsNode(o, r, next, l)
    {
      StepFeeds(o, s, k, l);
    }
  }

  lemma {:induction false} StepAt(o: seq<Comp>, s: seq<Comp>, k: nat, i: nat)
    requires k < |o| && Bare(o) && Progress(o, s, k) && i < |o|
    requires ParentOf(s, k) == ParentOf(o, k)
    ensures |o| <= |Fix(s, k)| && Fix(s, k)[i] == Expected(o, k + 1, i, Fix(s, k)[i].phases)
  {
    hide PhaseMerge, FindGuid, FindName, MergePhases;
    assert s[i] == Expected(o, k, i, s[i].phases);
    assert s[k] == Expected(o, k, k, s[k].phases);
    if ParentOf(o, k).Some? {
      var p := ParentOf(o, k).value;
      assert s[p] == Expected(o, k, p, s[p].phases);
      if o[p].Kind().Link? && (o[k].Kind().Link? || o[k].Kind().Leaf?) {
        BelowLinkAt(s, k, p, i);
      }
    }
  }

  lemma BelowLinkAt(s: seq<Comp>, k: nat, p: nat, i: nat)
    requires k < |s| && p < |s| && i < |s|
    ensures |s| <= |FixBelowLink(s, k, p)|
    ensures var r := FixBelowLink(s, k, p);
            var to := if s[p].to.Some? then s[p].to else Some(NewNode(s[k], s[p]).name);
            var c := s[i].(phases := r[i].phases, to := if i == p then to else s[i].to);
            r[i] == if i == k then Attach(c, to) else c
  {
  }

  lemma {:induction false} StepMadeUp(o: seq<Comp>, s: seq<Comp>, k: nat, i: nat)
    requires k < |o| && Bare(o) && Progress(o, s, k)
    requires ParentOf(s, k) == ParentOf(o, k)
    requires |o| <= i < |Fix(s, k)|
    ensures MadeUp(o, Fix(s, k)[i])
  {
    hide FindGuid, PhaseMerge, FindName, MergePhases;
    FixKeepsSkeleton(s, k);
    if i < |s| {
      assert MadeUp(o, s[i]);
    } else {
      GrowsByNewNode(s, k);
      var p := ParentOf(o, k).value;
      assert s[p] == Expected(o, k, p, s[p].phases) && s[k] == Expected(o, k, k, s[k].phases);
      assert ChildOf(o, k, p) && Fix(s, k)[i].name == NewName(o, k, p);
    }
  }

  lemma GrowsByNewNode(s: seq<Comp>, k: nat)
    requires k < |s| && |Fix(s, k)| > |s|
    ensures ParentOf(s, k).Some? && Fix(s, k)[|s|] == NewNode(s[k], s[ParentOf(s, k).value])
  {
  }

  lemma NodeStays(s: seq<Comp>, k: nat, name: string)
    requires k < |s| && NodeNamed(s, name)
    ensures NodeNamed(Fix(s, k), name)
  {
    FixKeepsSkeleton(s, k);
    var m :| 0 <= m < |s| && s[m].name == name && s[m].Kind().Node?;
    assert Fix(s, k)[m].name == name;
  }

  lemma StepFeeds(o: seq<Comp>, s: seq<Comp>, k: nat, l: nat)
    requires k < |o| && Bare(o) && Progress(o, s, k) && l < |o|
    requires ParentOf(s, k) == ParentOf(o, k)
    ensures FeedsNode(o, Fix(s, k), k + 1, l)
  {
    var r := Fix(s, k);
    assert FeedsNode(o, s, k, l);
    if ToAt(o, l, k + 1) == ToAt(o, l, k) {
      if ToAt(o, l, k).Some? { NodeStays(s, k, ToAt(o, l, k).value); }
    } else {
      FixKeepsSkeleton(s, k);
      assert s[k] == Expected(o, k, k, s[k].phases);
      assert s[l] == Expected(o, k, l, s[l].phases);
      if o[k].Kind().Node? {
        assert r[k].name == o[k].name && r[k].Kind().Node?;
      } else {
        assert r[|s|] == NewNode(s[k], s[l]);
      }
    }
  }

  lemma StartProgress(o: seq<Comp>)
    requires Bare(o)
    ensures Progress(o, o, 0)
  {
  }

  lemma {:induction false} RunProgress(o: seq<Comp>, k: nat)
    requires k <= |o| && Bare(o)
    ensures Progress(o, Run(o, k), k)
  {
    hide Fix, Progress;
    if k == 0 {
      StartProgress(o);
    } else {
      RunProgress(o, k - 1);
      Step(o, Run(o, k - 1), k - 1);
    }
  }

  /** Every name the pass writes is the name of a node of the result. */
  lemma WrittenNamesAreNodes(o: seq<Comp>, i: nat)
    requires Bare(o) && i < |Run(o, |o|)|
    ensures var s := Run(o, |o|);
            && (s[i].to.Some? ==> NodeNamed(s, s[i].to.value))
            && (s[i].from_.Some? ==> NodeNamed(s, s[i].from_.value))
            && (s[i].parent.Some? ==> NodeNamed(s, s[i].parent.value))
  {
    var s, n := Run(o, |o|), |o|;
    RunProgress(o, n);
    if i < n {
      assert s[i] == Expected(o, n, i, s[i].phases) && FeedsNode(o, s, n, i);
      if EntryAt(o, i).Some? {
        var p := ParentOf(o, i).value;
        if o[p].Kind().Node? {
          assert s[p].name == o[p].name && s[p].Kind().Node?;
        } else {
          EntryIsNode(o, i, n, p);
        }
      }
    } else {
      assert MadeUp(o, s[i]);
    }
  }

  /** A name a link was given at some point stays the name of a node, even if the link
      moves on to another. */
  lemma {:induction false} EntryIsNode(o: seq<Comp>, j: nat, k: nat, l: nat)
    requires Bare(o) && j < k <= |o| && l < |o| && ToAt(o, l, j + 1).Some?
    ensures NodeNamed(Run(o, k), ToAt(o, l, j + 1).value)
  {
    hide Fix, ToAt;
    if j + 1 == k {
      RunProgress(o, k);
      assert FeedsNode(o, Run(o, k), k, l);
    } else {
      EntryIsNode(o, j, k - 1, l);
      NodeStays(Run(o, k - 1), k - 1, ToAt(o, l, j + 1).value);
    }
  }

  // ------------------------------------------------------------------ phases of the nodes below links

  ghost predicate CarriesPhases(s: seq<Comp>, name: string, phases: Option<string>) {
    exists m :: 0 <= m < |s| && s[m].name == name && Covers(s[m].phases, phases)
  }

  lemma MergeCovers(a: string, b: string)
    ensures Covers(Some(PhaseMerge(a, b)), Some(a)) && Covers(Some(PhaseMerge(a, b)), Some(b))
  {
    SortedSetKeeps(a + b);
  }

  lemma MergePhasesGrows(cs: seq<Comp>, name: string, phases: Option<string>, i: nat)
    requires i < |cs|
    ensures Covers(MergePhases(cs, name, phases)[i].phases, cs[i].phases)
    ensures FindName(cs, name) == Some(i) && cs[i].phases.Some? ==> Covers(MergePhases(cs, name, phases)[i].phases, phases)
  {
    hide PhaseMerge;
    if cs[i].phases.Some? && phases.Some? { MergeCovers(cs[i].phases.value, phases.value); }
  }

  lemma PhasesGrow(s: seq<Comp>, k: nat, i: nat)
    requires k < |s| && i < |s|
    ensures i < |Fix(s, k)| && Covers(Fix(s, k)[i].phases, s[i].phases)
    ensures Fix(s, k)[i].phases.Some? <==> s[i].phases.Some?
  {
    hide PhaseMerge, FindGuid, FindName, NewNode, MergePhases;
    FixKeepsSkeleton(s, k);
    if s[k].guid.Some? && ParentOf(s, k).Some? {
      var p := ParentOf(s, k).value;
      if s[p].to.Some? {
        MergePhasesGrows(s[k := Attach(s[k], s[p].to)], s[p].to.value, s[k].phases, i);
      }
    }
  }

  lemma {:induction false} RunPhasesGrow(o: seq<Comp>, k: nat, i: nat)
    requires k <= |o| && i < |o|
    ensures Covers(Run(o, k)[i].phases, o[i].phases) && (Run(o, k)[i].phases.Some? <==> o[i].phases.Some?)
  {
    hide Fix;
    if k > 0 {
      RunPhasesGrow(o, k - 1, i);
      PhasesGrow(Run(o, k - 1), k - 1, i);
    }
  }

  lemma AttachmentCarriesPhases(o: seq<Comp>, j: nat, p: nat)
    requires Bare(o) && ChildOf(o, j, p) && o[p].Kind().Link? && (o[j].Kind().Link? || o[j].Kind().Leaf?)
    requires !Raises(Run(o, j), j)
    ensures o[j].phases.Some? && ToAt(o, p, j + 1).Some? && CarriesPhases(Run(o, j + 1), ToAt(o, p, j + 1).value, o[j].phases)
  {
    hide PhaseMerge, Covers;
    var s, r := Run(o, j), Run(o, j + 1);
    RunProgress(o, j);
    StepParent(o, s, j);
    RunPhasesGrow(o, j, j);
    assert s[j] == Expected(o, j, j, s[j].phases) && s[p] == Expected(o, j, p, s[p].phases);
    assert IsBelowLink(s, j);
    if s[p].to.Some? {
      var cs := s[j := Attach(s[j], s[p].to)];
      SameNames(s, j, cs[j], s[p].to.value);
      var m := FindName(cs, s[p].to.value).value;
      MergePhasesGrows(cs, s[p].to.value, s[j].phases, m);
      assert r[m].name == s[p].to.value;
      CoversTrans(r[m].phases, s[j].phases, o[j].phases);
    } else {
      assert r[|s|] == NewNode(s[j], s[p]);
    }
  }

  /** In a run that raises nothing, whatever hangs below a link has phases, and is attached to a
      node that ends up with all of them. */
  lemma {:induction false} NodesCarryPhases(o: seq<Comp>, j: nat, p: nat, k: nat)
    requires Bare(o) && ChildOf(o, j, p) && o[p].Kind().Link? && (o[j].Kind().Link? || o[j].Kind().Leaf?)
    requires j < k <= |o| && EndsBefore(o, k)
    ensures o[j].phases.Some? && EntryAt(o, j).Some? && CarriesPhases(Run(o, k), EntryAt(o, j).value, o[j].phases)
  {
    hide Fix, Run, Covers, PhaseMerge, EntryAt, Raises;
    EntryIsTo(o, j, p);
    AttachmentCarriesPhases(o, j, p);
    if j + 1 < k {
      NodesCarryPhases(o, j, p, k - 1);
      var s := Run(o, k - 1);
      var m :| 0 <= m < |s| && s[m].name == EntryAt(o, j).value && Covers(s[m].phases, o[j].phases);
      PhasesGrow(s, k - 1, m);
      FixKeepsSkeleton(s, k - 1);
      RunStep(o, k);
      assert Run(o, k)[m].name == s[m].name;
      CoversTrans(Run(o, k)[m].phases, s[m].phases, o[j].phases);
    }
  }

  lemma EntryIsTo(o: seq<Comp>, j: nat, p: nat)
    requires ChildOf(o, j, p) && o[p].Kind().Link?
    ensures EntryAt(o, j) == ToAt(o, p, j + 1)
  {
  }

  lemma RunStep(o: seq<Comp>, k: nat)
    requires 0 < k <= |o|
    ensures Run(o, k) == Fix(Run(o, k - 1), k - 1)
  {
    hide Fix;
  }

  lemma CoversTrans(a: Option<string>, b: Option<string>, c: Option<string>)
    requires Covers(a, b) && Covers(b, c)
    ensures Covers(a, c)
  {
  }

  // ------------------------------------------------------------------ when the pass raises

  /** Component j asks for phases that are not there: its own, or those of the first component
      with the name the link above it feeds at that time. */
  predicate Missing(o: seq<Comp>, j: nat)
    requires j < |o|
  {
    && IsBelowLink(o, j)
    && var to := ToAt(o, ParentOf(o, j).value, j);
       o[j].phases.None? || (to.Some? && FindName(o, to.value).Some? && !HasPhases(o, to.value))
  }

  lemma {:induction false} FindNameLonger(o: seq<Comp>, s: seq<Comp>, name: string)
    requires |o| <= |s| && forall i :: 0 <= i < |o| ==> s[i].name == o[i].name
    ensures FindName(o, name).Some? ==> FindName(s, name) == FindName(o, name)
    ensures FindName(o, name).None? && FindName(s, name).Some? ==> FindName(s, name).value >= |o|
  {
    if o != [] && o[0].name != name { FindNameLonger(o[1..], s[1..], name); }
  }

  /** As long as nothing has been raised, the nodes made up have phases. */
  lemma {:induction false} MadeUpHavePhases(o: seq<Comp>, k: nat, m: nat)
    requires k <= |o| && Bare(o) && EndsBefore(o, k) && |o| <= m < |Run(o, k)|
    ensures Run(o, k)[m].phases.Some?
  {
    hide Raises, Fix, Run, Progress;
    if k == 0 {
      RunStarts(o);
    } else {
      var s := Run(o, k - 1);
      RunProgress(o, k - 1);
      ProgressLength(o, s, k - 1);
      RunStep(o, k);
      FixKeepsSkeleton(s, k - 1);
      if m < |s| {
        MadeUpHavePhases(o, k - 1, m);
        PhasesGrow(s, k - 1, m);
      } else {
        NewNodeHasPhases(s, k - 1);
      }
    }
  }

  lemma RunStarts(o: seq<Comp>)
    ensures Run(o, 0) == o
  {
  }

  lemma ProgressLength(o: seq<Comp>, s: seq<Comp>, k: nat)
    requires k <= |o| && Progress(o, s, k)
    ensures |o| <= |s|
  {
  }

  lemma NewNodeHasPhases(s: seq<Comp>, k: nat)
    requires k < |s| && |Fix(s, k)| > |s| && !Raises(s, k)
    ensures |Fix(s, k)| == |s| + 1 && Fix(s, k)[|s|].phases.Some?
  {
    hide PhaseMerge, FindName;
    FixKeepsSkeleton(s, k);
  }

  /** Whether the next component raises can be told from the list as it was. */
  lemma {:induction false} RaisesIfMissing(o: seq<Comp>, j: nat)
    requires j < |o| && Bare(o) && EndsBefore(o, j)
    ensures |o| <= |Run(o, j)| && (Raises(Run(o, j), j) <==> Missing(o, j))
  {
    hide PhaseMerge, Run, ToAt, FindName, Fix;
    var s := Run(o, j);
    RunProgress(o, j);
    StepParent(o, s, j);
    RunPhasesGrow(o, j, j);
    assert s[j] == Expected(o, j, j, s[j].phases);
    if ParentOf(o, j).Some? {
      var p := ParentOf(o, j).value;
      assert s[p] == Expected(o, j, p, s[p].phases) && FeedsNode(o, s, j, p);
      if ToAt(o, p, j).Some? { TargetPhases(o, j, ToAt(o, p, j).value); }
    }
  }

  lemma TargetPhases(o: seq<Comp>, k: nat, name: string)
    requires k <= |o| && Bare(o) && EndsBefore(o, k) && NodeNamed(Run(o, k), name)
    ensures HasPhases(Run(o, k), name) <==> FindName(o, name).None? || HasPhases(o, name)
  {
    hide PhaseMerge, Run, Raises;
    var s := Run(o, k);
    RunProgress(o, k);
    forall i | 0 <= i < |o|
      ensures s[i].name == o[i].name
    {
      assert s[i] == Expected(o, k, i, s[i].phases);
    }
    FindNameLonger(o, s, name);
    var m := FindName(s, name).value;
    if m < |o| { RunPhasesGrow(o, k, m); } else { MadeUpHavePhases(o, k, m); }
  }

  /** The pass raises exactly if some component asks for phases that are not there. */
  lemma {:induction false} EndsIff(o: seq<Comp>, k: nat)
    requires k <= |o| && Bare(o)
    ensures EndsBefore(o, k) <==> forall j :: 0 <= j < k ==> !Missing(o, j)
  {
    hide Raises, Run, Missing;
    if k > 0 {
      EndsIff(o, k - 1);
      if EndsBefore(o, k - 1) { RaisesIfMissing(o, k - 1); }
    }
  }

  /** Everything below a link has phases. */
  ghost predicate PhasedBelowLinks(o: seq<Comp>) {
    forall j :: 0 <= j < |o| && IsBelowLink(o, j) ==> o[j].phases.Some?
  }

  /** On what obConvert delivers, if names do not clash: the pass raises exactly if a motor or
      generator hangs below a link. */
  lemma RaisesIffUnphased(o: seq<Comp>)
    requires Converted(o)
    ensures EndsBefore(o, |o|) <==> PhasedBelowLinks(o)
    ensures EndsBefore(o, |o|) <==>
              forall j :: 0 <= j < |o| && o[j].phases.None? ==> (o[j].class_.ZIPload? || o[j].class_.DieselDg?) && !IsBelowLink(o, j)
  {
    EndsIff(o, |o|);
    forall j | 0 <= j < |o|
      ensures Missing(o, j) <==> IsBelowLink(o, j) && o[j].phases.None?
    {
      if IsBelowLink(o, j) && ToAt(o, ParentOf(o, j).value, j).Some? {
        WrittenNameHasPhases(o, ParentOf(o, j).value, j);
      }
    }
  }

  lemma WrittenNameHasPhases(o: seq<Comp>, l: nat, k: nat)
    requires Converted(o) && l < |o| && k <= |o| && ToAt(o, l, k).Some?
    ensures FindName(o, ToAt(o, l, k).value).None? || HasPhases(o, ToAt(o, l, k).value)
  {
    hide ToAt;
    var i := ToOrigin(o, l, k);
    var found := FindName(o, ToAt(o, l, k).value);
    if found.Some? {
      assert o[i].Kind().Node? && found.value == i;
    }
  }

  // ------------------------------------------------------------------ phases of the result

  ghost predicate HasLetter(c: Comp, letter: char) {
    c.phases.Some? && letter in c.phases.value
  }

  /** Component j hangs below a link, and is one of the first k; it is attached to the node of this name. */
  ghost predicate HangsAt(o: seq<Comp>, j: nat, name: string, k: nat) {
    && j < k <= |o| && ParentOf(o, j).Some? && o[ParentOf(o, j).value].Kind().Link?
    && (o[j].Kind().Link? || o[j].Kind().Leaf?) && EntryAt(o, j) == Some(name)
  }

  /** The phases of component m after the first k: as they were if nothing hangs there, those of
      what hangs there if m was made up for it, and otherwise the letters of both in order. */
  ghost predicate PhasesAt(o: seq<Comp>, s: seq<Comp>, k: nat, m: nat)
    requires m < |s|
  {
    && (forall c :: HasLetter(s[m], c) <==> (m < |o| && HasLetter(o[m], c)) || LetterHangsAt(o, s[m].name, k, c))
    && (m < |o| && (forall j: nat :: !HangsAt(o, j, s[m].name, k)) ==> s[m].phases == o[m].phases)
    && (m >= |o| ==> exists j: nat :: HangsAt(o, j, s[m].name, k))
    && (forall j: nat :: HangsAt(o, j, s[m].name, k) ==>
                           && s[m].phases.Some?
                           && (Ascending(s[m].phases.value)
                               || (m >= |o| && s[m].phases == o[j].phases && OnlyOneHangs(o, j, s[m].name, k))))
  }

  ghost predicate LetterHangsAt(o: seq<Comp>, name: string, k: nat, letter: char) {
    exists j: nat :: HangsAt(o, j, name, k) && HasLetter(o[j], letter)
  }

  ghost predicate OnlyOneHangs(o: seq<Comp>, j: nat, name: string, k: nat) {
    forall i: nat :: HangsAt(o, i, name, k) ==> i == j
  }

  /** The node made up for component j below link p. */
  ghost predicate MadeUpFor(o: seq<Comp>, c: Comp, j: nat, p: nat) {
    && ChildOf(o, j, p)
    && c == Comp(GridNode, "node" + o[j].name + o[p].name, c.phases, o[j].latitude, o[j].longitude,
                 Some(NOMINAL_VOLTAGE), None, "", None, None, None)
  }

  ghost predicate IsMadeUp(o: seq<Comp>, c: Comp) {
    exists j: nat, p: nat :: MadeUpFor(o, c, j, p)
  }

  /** Every component that is appended is such a node, and stays one. */
  lemma {:induction false} AppendedAreMadeUp(o: seq<Comp>, k: nat, m: nat) returns (j: nat, p: nat)
    requires k <= |o| && Bare(o) && |o| <= m < |Run(o, k)|
    ensures MadeUpFor(o, Run(o, k)[m], j, p)
  {
    hide Fix, Run, Progress, ToAt;
    if k == 0 {
      RunStarts(o);
      assert false;
    } else {
      var s := Run(o, k - 1);
      RunProgress(o, k - 1);
      ProgressLength(o, s, k - 1);
      RunStep(o, k);
      if m < |s| {
        j, p := AppendedAreMadeUp(o, k - 1, m);
        MadeUpUntouched(o, s, k - 1, m);
      } else {
        j := k - 1;
        p := AppendedNow(o, s, j);
      }
    }
  }

  lemma {:induction false} MadeUpUntouched(o: seq<Comp>, s: seq<Comp>, k: nat, m: nat)
    requires k < |o| && Bare(o) && Progress(o, s, k) && |o| <= m < |s|
    ensures m < |Fix(s, k)| && Fix(s, k)[m] == s[m].(phases := Fix(s, k)[m].phases)
  {
    hide FindGuid, PhaseMerge, FindName, MergePhases;
    StepParent(o, s, k);
    FixKeepsSkeleton(s, k);
  }

  lemma {:induction false} AppendedNow(o: seq<Comp>, s: seq<Comp>, j: nat) returns (p: nat)
    requires j < |o| && Bare(o) && Progress(o, s, j) && |Fix(s, j)| > |s|
    ensures |Fix(s, j)| == |s| + 1 && MadeUpFor(o, Fix(s, j)[|s|], j, p)
  {
    hide ToAt, FindGuid, FindName, MergePhases;
    FixKeepsSkeleton(s, j);
    StepParent(o, s, j);
    p := ParentOf(o, j).value;
    assert s[j] == Expected(o, j, j, s[j].phases) && s[p] == Expected(o, j, p, s[p].phases);
  }

  lemma {:induction false} MadeUpWhen(o: seq<Comp>, k: nat, m: nat) returns (j: nat, p: nat)
    requires k <= |o| && Bare(o) && |o| <= m < |Run(o, k)|
    ensures j < k && ChildOf(o, j, p) && o[p].Kind().Link? && (o[j].Kind().Link? || o[j].Kind().Leaf?)
    ensures ToAt(o, p, j).None? && Run(o, k)[m].name == NewName(o, j, p)
  {
    hide Fix, Run, Progress, ToAt, NewNode;
    if k == 0 {
      RunStarts(o);
      assert false;
    } else {
      var s := Run(o, k - 1);
      RunProgress(o, k - 1);
      ProgressLength(o, s, k - 1);
      RunStep(o, k);
      FixKeepsSkeleton(s, k - 1);
      if m < |s| {
        j, p := MadeUpWhen(o, k - 1, m);
      } else {
        j := k - 1;
        p := MadeUpNow(o, s, j);
      }
    }
  }

  lemma {:induction false} MadeUpNow(o: seq<Comp>, s: seq<Comp>, j: nat) returns (p: nat)
    requires j < |o| && Bare(o) && Progress(o, s, j) && |Fix(s, j)| > |s|
    ensures ChildOf(o, j, p) && o[p].Kind().Link? && (o[j].Kind().Link? || o[j].Kind().Leaf?)
    ensures ToAt(o, p, j).None? && Fix(s, j)[|s|].name == NewName(o, j, p)
    ensures Fix(s, j)[|s|].phases == s[j].phases
  {
    hide ToAt, FindGuid, FindName, MergePhases;
    StepParent(o, s, j);
    p := ParentOf(o, j).value;
    assert s[j] == Expected(o, j, j, s[j].phases) && s[p] == Expected(o, j, p, s[p].phases);
  }

  /** Names that do not clash at first never do. */
  ghost predicate NoNameTwice(s: seq<Comp>) {
    forall i, j :: 0 <= i < j < |s| ==> s[i].name != s[j].name
  }

  lemma {:induction false} NewNameIsNew(o: seq<Comp>, k: nat, j: nat, p: nat, m: nat)
    requires Converted(o) && j == k < |o| && ChildOf(o, j, p) && o[p].Kind().Link? && ToAt(o, p, j).None? && m < |Run(o, k)|
    ensures Run(o, k)[m].name != NewName(o, j, p)
  {
    hide Fix, Run, ToAt, NewNode;
    var s := Run(o, k);
    RunProgress(o, k);
    if m < |o| {
      assert s[m] == Expected(o, k, m, s[m].phases);
      assert NewName(o, j, p) != o[m].name;
    } else {
      var i, q := MadeUpWhen(o, k, m);
      if NewName(o, i, q) == NewName(o, j, p) {
        assert p == q;
        ChildSetsTo(o, i, p);
        ToStays(o, p, i + 1, j);
        assert false;
      }
    }
  }

  lemma {:induction false} NamesStayApart(o: seq<Comp>, k: nat)
    requires k <= |o| && Converted(o)
    ensures NoNameTwice(Run(o, k))
  {
    hide Fix, Run, Progress, ToAt, NewNode;
    if k == 0 {
      RunStarts(o);
    } else {
      var s, r := Run(o, k - 1), Run(o, k);
      NamesStayApart(o, k - 1);
      RunProgress(o, k - 1);
      ProgressLength(o, s, k - 1);
      RunStep(o, k);
      FixKeepsSkeleton(s, k - 1);
      if |r| > |s| {
        var p := MadeUpNow(o, s, k - 1);
        forall m: nat | m < |s|
          ensures s[m].name != NewName(o, k - 1, p)
        {
          NewNameIsNew(o, k - 1, k - 1, p, m);
        }
      }
    }
  }

  /** One component more hangs at its node, and nothing else changes. */
  lemma {:induction false} HangsMore(o: seq<Comp>, i: nat, name: string, k: nat)
    requires k < |o|
    ensures HangsAt(o, i, name, k + 1) <==> HangsAt(o, i, name, k) || (i == k && HangsAt(o, k, name, k + 1))
  {
    hide EntryAt;
  }

  lemma {:induction false} MergeElsewhere(cs: seq<Comp>, name: string, phases: Option<string>, m: nat)
    requires m < |cs|
    ensures cs[m].name != name ==> MergePhases(cs, name, phases)[m] == cs[m]
  {
    hide PhaseMerge;
  }

  lemma {:induction false} PhasesUntouched(o: seq<Comp>, s: seq<Comp>, j: nat, m: nat)
    requires j < |o| && Bare(o) && Progress(o, s, j) && m < |s| && !HangsAt(o, j, s[m].name, j + 1)
    ensures m < |Fix(s, j)| && Fix(s, j)[m].phases == s[m].phases
  {
    hide PhaseMerge, FindGuid, FindName, MergePhases, NewNode;
    StepParent(o, s, j);
    FixKeepsSkeleton(s, j);
    if ParentOf(o, j).Some? {
      var p := ParentOf(o, j).value;
      assert s[j] == Expected(o, j, j, s[j].phases) && s[p] == Expected(o, j, p, s[p].phases);
      if s[p].to.Some? { MergeElsewhere(s[j := Attach(s[j], s[p].to)], s[p].to.value, s[j].phases, m); }
    }
  }

  /** Links and leaves keep the phases they had. */
  lemma {:induction false} NothingHangsAtOthers(o: seq<Comp>, j: nat, i: nat, k: nat)
    requires Converted(o) && j < |o| && (o[j].Kind().Link? || o[j].Kind().Leaf?)
    ensures !HangsAt(o, i, o[j].name, k)
  {
    hide NewNamesApart, ToAt;
    if HangsAt(o, i, o[j].name, k) {
      var l := ParentOf(o, i).value;
      EntryIsTo(o, i, l);
      NodeFedByParentOnly(o, j, l, i + 1);
      assert false;
    }
  }

  /** What the link above j feeds by then is where j goes, or a node is made up for it. */
  lemma {:induction false} HangingIs(o: seq<Comp>, s: seq<Comp>, j: nat, name: string)
    requires j < |o| && Bare(o) && Progress(o, s, j) && HangsAt(o, j, name, j + 1)
    ensures IsBelowLink(s, j) && ParentOf(s, j) == ParentOf(o, j)
    ensures var p := ParentOf(o, j).value;
            && ToAt(o, p, j) == s[p].to
            && name == if s[p].to.Some? then s[p].to.value else NewName(o, j, p)
  {
    hide FindGuid;
    StepParent(o, s, j);
    var p := ParentOf(o, j).value;
    assert s[j] == Expected(o, j, j, s[j].phases) && s[p] == Expected(o, j, p, s[p].phases);
  }

  /** A name that occurs once is found where it is. */
  lemma {:induction false} FoundOnce(s: seq<Comp>, m: nat)
    requires m < |s| && NoNameTwice(s)
    ensures FindName(s, s[m].name) == Some(m)
  {
    var found := FindName(s, s[m].name);
  }

  lemma {:induction false} HangingMerges(o: seq<Comp>, s: seq<Comp>, j: nat, m: nat)
    requires j < |o| && Bare(o) && Progress(o, s, j) && m < |s| && HangsAt(o, j, s[m].name, j + 1)
    requires NoNameTwice(s) && !Raises(s, j) && s[ParentOf(o, j).value].to.Some?
    ensures s[m].phases.Some? && s[j].phases.Some? && m < |Fix(s, j)|
    ensures Fix(s, j)[m].phases == Some(PhaseMerge(s[m].phases.value, s[j].phases.value))
  {
    hide PhaseMerge, FindGuid, ToAt, FindName;
    HangingIs(o, s, j, s[m].name);
    FixKeepsSkeleton(s, j);
    FoundOnce(s, m);
    SameNames(s, j, Attach(s[j], s[ParentOf(o, j).value].to), s[m].name);
  }

  /** One more letter source. */
  lemma {:induction false} LettersMore(o: seq<Comp>, name: string, k: nat, c: char)
    requires k < |o|
    ensures LetterHangsAt(o, name, k + 1, c) <==>
            LetterHangsAt(o, name, k, c) || (HangsAt(o, k, name, k + 1) && HasLetter(o[k], c))
  {
    hide HangsAt, HasLetter;
    forall i: nat
      ensures HangsAt(o, i, name, k + 1) <==> HangsAt(o, i, name, k) || (i == k && HangsAt(o, k, name, k + 1))
    {
      HangsMore(o, i, name, k);
    }
  }

  lemma {:induction false} PhasesStay(o: seq<Comp>, s: seq<Comp>, r: seq<Comp>, k: nat, m: nat)
    requires k < |o| && m < |s| && m < |r| && PhasesAt(o, s, k, m) && !HangsAt(o, k, s[m].name, k + 1)
    requires r[m].name == s[m].name && r[m].phases == s[m].phases
    ensures PhasesAt(o, r, k + 1, m)
  {
    hide HangsAt, Ascending, LetterHangsAt;
    var next := k + 1;
    forall i: nat
      ensures HangsAt(o, i, s[m].name, next) <==> HangsAt(o, i, s[m].name, k)
    {
      HangsMore(o, i, s[m].name, k);
    }
    forall c
      ensures LetterHangsAt(o, s[m].name, next, c) <==> LetterHangsAt(o, s[m].name, k, c)
    {
      LettersMore(o, s[m].name, k, c);
    }
  }

  lemma {:induction false} PhasesMerge(o: seq<Comp>, s: seq<Comp>, r: seq<Comp>, k: nat, m: nat)
    requires k < |o| && m < |s| && m < |r| && PhasesAt(o, s, k, m) && HangsAt(o, k, s[m].name, k + 1)
    requires s[m].phases.Some? && o[k].phases.Some? && r[m].name == s[m].name
    requires r[m].phases == Some(PhaseMerge(s[m].phases.value, o[k].phases.value))
    ensures PhasesAt(o, r, k + 1, m)
  {
    hide HangsAt, Ascending, LetterHangsAt, PhaseMerge;
    PhaseMergeIs(s[m].phases.value, o[k].phases.value);
    var next := k + 1;
    forall i: nat
      ensures HangsAt(o, i, s[m].name, next) <==> HangsAt(o, i, s[m].name, k) || i == k
    {
      HangsMore(o, i, s[m].name, k);
    }
    forall c
      ensures LetterHangsAt(o, s[m].name, next, c) <==> LetterHangsAt(o, s[m].name, k, c) || HasLetter(o[k], c)
    {
      LettersMore(o, s[m].name, k, c);
    }
  }

  /** A node made up for k: nothing else hangs there yet. */
  lemma {:induction false} PhasesStart(o: seq<Comp>, s: seq<Comp>, r: seq<Comp>, k: nat, p: nat)
    requires Converted(o) && k < |o| && |o| <= |s| < |r| && ChildOf(o, k, p) && o[p].Kind().Link? && ToAt(o, p, k).None?
    requires o[k].Kind().Link? || o[k].Kind().Leaf?
    requires r[|s|].name == NewName(o, k, p) && r[|s|].phases == o[k].phases && o[k].phases.Some?
    ensures PhasesAt(o, r, k + 1, |s|)
  {
    hide Ascending, NewNode, Converted, HangsAt;
    var name, next := NewName(o, k, p), k + 1;
    assert HangsAt(o, k, name, next) by { HangsAtNew(o, k, p); }
    forall i: nat | HangsAt(o, i, name, next)
      ensures i == k
    {
      if i != k {
        HangsMore(o, i, name, k);
        OnlyOneAtNew(o, k, p, i);
      }
    }
    forall c
      ensures LetterHangsAt(o, name, k + 1, c) <==> HasLetter(o[k], c)
    {
    }
  }

  lemma {:induction false} HangsAtNew(o: seq<Comp>, k: nat, p: nat)
    requires k < |o| && ChildOf(o, k, p) && o[p].Kind().Link? && ToAt(o, p, k).None? && (o[k].Kind().Link? || o[k].Kind().Leaf?)
    ensures HangsAt(o, k, NewName(o, k, p), k + 1)
  {
    hide NewNode;
  }

  lemma {:induction false} OnlyOneAtNew(o: seq<Comp>, k: nat, p: nat, i: nat)
    requires Converted(o) && k < |o| && ChildOf(o, k, p) && o[p].Kind().Link? && ToAt(o, p, k).None?
    requires o[k].Kind().Link? || o[k].Kind().Leaf?
    ensures !HangsAt(o, i, NewName(o, k, p), k)
  {
    hide NewNode, ToAt;
    if HangsAt(o, i, NewName(o, k, p), k) {
      var l := ParentOf(o, i).value;
      HangsAtNew(o, k, p);
      EntryIsTo(o, i, l);
      EntryIsTo(o, k, p);
      ToTellsLinksApart(o, l, i + 1, p, k + 1);
      ToStays(o, p, i + 1, k);
      assert false;
    }
  }

  /** What the phases of the list are after k components that have not raised. */
  lemma {:induction false} RunPhases(o: seq<Comp>, k: nat, m: nat)
    requires k <= |o| && Converted(o) && EndsBefore(o, k) && m < |Run(o, k)|
    ensures PhasesAt(o, Run(o, k), k, m)
    decreases k, 0
  {
    hide Fix, Run, Progress, ToAt, NewNode, PhasesAt, HangsAt, Raises, PhaseMerge, NoNameTwice;
    if k == 0 {
      RunStarts(o);
      PhasesAtFirst(o, m);
    } else {
      var j := k - 1;
      var s, r := Run(o, j), Run(o, k);
      RunProgress(o, j);
      ProgressLength(o, s, j);
      RunStep(o, k);
      FixKeepsSkeleton(s, j);
      if m >= |s| {
        var p := MadeUpNow(o, s, j);
        UnmergedPhases(o, j);
        NewNodeHasPhases(s, j);
        PhasesStart(o, s, r, j, p);
      } else {
        RunPhases(o, j, m);
        if HangsAt(o, j, s[m].name, k) {
          MergeStep(o, j, m);
        } else {
          PhasesUntouched(o, s, j, m);
          PhasesStay(o, s, r, j, m);
        }
      }
    }
  }

  lemma {:induction false} PhasesAtFirst(o: seq<Comp>, m: nat)
    requires m < |o|
    ensures PhasesAt(o, o, 0, m)
  {
    assert forall j: nat :: !HangsAt(o, j, o[m].name, 0);
  }

  /** The component about to be attached still has the phases it came with. */
  lemma {:induction false} UnmergedPhases(o: seq<Comp>, j: nat)
    requires j < |o| && Converted(o) && EndsBefore(o, j) && (o[j].Kind().Link? || o[j].Kind().Leaf?)
    ensures j < |Run(o, j)| && Run(o, j)[j].phases == o[j].phases
    decreases j, 1
  {
    hide Run, Progress, HangsAt, Raises;
    RunProgress(o, j);
    ProgressAt(o, Run(o, j), j, j);
    RunPhases(o, j, j);
    forall i: nat
      ensures !HangsAt(o, i, o[j].name, j)
    {
      NothingHangsAtOthers(o, j, i, j);
    }
  }

  lemma {:induction false} ProgressAt(o: seq<Comp>, s: seq<Comp>, k: nat, i: nat)
    requires k <= |o| && Progress(o, s, k) && i < |o|
    ensures i < |s| && s[i].name == o[i].name
  {
    assert s[i] == Expected(o, k, i, s[i].phases);
  }

  lemma {:induction false} MergeStep(o: seq<Comp>, j: nat, m: nat)
    requires j < |o| && Converted(o) && EndsBefore(o, j + 1) && m < |Run(o, j)|
    requires PhasesAt(o, Run(o, j), j, m) && HangsAt(o, j, Run(o, j)[m].name, j + 1)
    ensures m < |Run(o, j + 1)| && PhasesAt(o, Run(o, j + 1), j + 1, m)
    decreases j, 2
  {
    hide Fix, Run, Progress, ToAt, NewNode, PhasesAt, Raises, PhaseMerge, NoNameTwice;
    var s, r := Run(o, j), Run(o, j + 1);
    RunProgress(o, j);
    RunStep(o, j + 1);
    FixKeepsSkeleton(s, j);
    NamesStayApart(o, j);
    HangingIs(o, s, j, s[m].name);
    UnmergedPhases(o, j);
    var p := ParentOf(o, j).value;
    if s[p].to.None? {
      NewNameIsNew(o, j, j, p, m);
      assert false;
    }
    HangingMerges(o, s, j, m);
    PhasesMerge(o, s, r, j, m);
  }

  /** Component j of the result hangs below a link, and is attached to the node of this name. */
  ghost predicate Hangs(o: seq<Comp>, s: seq<Comp>, j: nat, name: string) {
    && j < |o| <= |s| && ParentOf(o, j).Some? && o[ParentOf(o, j).value].Kind().Link?
    && ((o[j].Kind().Link? && s[j].from_ == Some(name)) || (o[j].Kind().Leaf? && s[j].parent == Some(name)))
  }

  /** The phases of component m of the result.  Its letters are its own and those of what hangs at
      it below a link, and no others; where anything has been merged they are in order, each once;
      where nothing hangs, and where a node was made up for the only one that does, they are
      what was given. */
  ghost predicate PhasesMerged(o: seq<Comp>, s: seq<Comp>, m: nat)
    requires m < |s|
  {
    && (forall c :: HasLetter(s[m], c) <==>
                      || (m < |o| && HasLetter(o[m], c))
                      || exists j: nat :: Hangs(o, s, j, s[m].name) && HasLetter(o[j], c))
    && (m < |o| && (forall j: nat :: !Hangs(o, s, j, s[m].name)) ==> s[m].phases == o[m].phases)
    && (forall j: nat :: Hangs(o, s, j, s[m].name) ==>
                           && s[m].phases.Some?
                           && (Ascending(s[m].phases.value)
                               || (m >= |o| && s[m].phases == o[j].phases && forall i: nat :: Hangs(o, s, i, s[m].name) ==> i == j)))
  }

  lemma {:induction false} HangsAsWritten(o: seq<Comp>, s: seq<Comp>, j: nat, name: string)
    requires Bare(o) && Progress(o, s, |o|)
    ensures Hangs(o, s, j, name) <==> HangsAt(o, j, name, |o|)
  {
    hide EntryAt, ToAt, FindGuid;
    if j < |o| { assert s[j] == Expected(o, |o|, j, s[j].phases); }
  }

  lemma {:induction false} PhasesOfResult(o: seq<Comp>, m: nat)
    requires Converted(o) && EndsBefore(o, |o|) && m < |Run(o, |o|)|
    ensures PhasesMerged(o, Run(o, |o|), m)
  {
    hide Run, Progress, HangsAt, EndsBefore, Ascending, HasLetter;
    var s, n := Run(o, |o|), |o|;
    RunProgress(o, n);
    RunPhases(o, n, m);
    forall j: nat, name
      ensures Hangs(o, s, j, name) <==> HangsAt(o, j, name, n)
    {
      HangsAsWritten(o, s, j, name);
    }
    forall c
      ensures LetterHangsAt(o, s[m].name, n, c) <==> exists j: nat :: Hangs(o, s, j, s[m].name) && HasLetter(o[j], c)
    {
    }
  }

  // ------------------------------------------------------------------ link paths

  ghost predicate Feeds(s: seq<Comp>, l: nat, name: Option<string>) {
    l < |s| && s[l].Kind().Link? && name.Some? && s[l].to == name
  }

  /** ls are the links passed on the way down to the named node, nothing feeding the first. */
  ghost predicate IsFeed(s: seq<Comp>, name: Option<string>, ls: seq<nat>)
    decreases |ls|
  {
    if ls == [] then forall l :: 0 <= l < |s| ==> !Feeds(s, l, name)
    else
      var l := ls[|ls| - 1];
      Feeds(s, l, name) && IsFeed(s, s[l].from_, ls[..|ls| - 1])
  }

  /** The node a component of the result sits at. */
  function Entry(s: seq<Comp>, c: nat): Option<string>
    requires c < |s|
  {
    match s[c].Kind()
    case Link => s[c].from_
    case Leaf => s[c].parent
    case Node => Some(s[c].name)
    case Other => None
  }

  /** Parent guids do not run in circles. */
  ghost predicate Acyclic(o: seq<Comp>, rank: seq<nat>) {
    |rank| == |o| && forall i: nat, p: nat :: ChildOf(o, i, p) ==> rank[p] < rank[i]
  }

  /** The links among the ancestors of c in the parentGuid chain, topmost first. */
  ghost function LinkAncestors(o: seq<Comp>, rank: seq<nat>, c: nat): seq<nat>
    requires Acyclic(o, rank) && c < |o|
    decreases rank[c]
  {
    var p := ParentOf(o, c);
    if p.None? then []
    else
      assert ChildOf(o, c, p.value);
      LinkAncestors(o, rank, p.value) + (if o[p.value].Kind().Link? then [p.value] else [])
  }

  /** A node below a link comes before the other children of that link, and there is only one. */
  ghost predicate NodeFirst(o: seq<Comp>) {
    forall i: nat, j: nat, l: nat ::
      ChildOf(o, i, l) && ChildOf(o, j, l) && i < j && o[l].Kind().Link? && o[j].Kind().Node?
      ==> o[i].Kind().Other?
  }

  /** The pairs of classes fixCompConnectivity has a case for. */
  ghost predicate Attachable(o: seq<Comp>, c: nat)
    requires c < |o|
  {
    var p := ParentOf(o, c);
    && p.Some?
    && match o[p.value].Kind()
       case Node => o[c].Kind().Link? || o[c].Kind().Leaf?
       case Link => !o[c].Kind().Other?
       case _ => false
  }

  ghost predicate AllAttach(o: seq<Comp>, rank: seq<nat>)
    requires Acyclic(o, rank)
  {
    forall c :: 0 <= c < |o| && LinkAncestors(o, rank, c) != [] ==> Attachable(o, c)
  }

  /** The pass ends, and the result has the same links above each component. */
  ghost predicate PathsPreserved(o: seq<Comp>, rank: seq<nat>)
    requires Acyclic(o, rank)
  {
    var s := Run(o, |o|);
    && EndsBefore(o, |o|)
    && forall c :: 0 <= c < |o| ==> IsFeed(s, Entry(s, c), LinkAncestors(o, rank, c))
  }

  lemma {:induction false} ToOrigin(o: seq<Comp>, l: nat, k: nat) returns (j: nat)
    requires l < |o| && k <= |o| && ToAt(o, l, k).Some?
    ensures j < k && ChildOf(o, j, l) && o[l].Kind().Link?
    ensures o[j].Kind().Node? || o[j].Kind().Link? || o[j].Kind().Leaf?
    ensures ToAt(o, l, k).value == if o[j].Kind().Node? then o[j].name else NewName(o, j, l)
    ensures forall i: nat :: ChildOf(o, i, l) && i < k && o[i].Kind().Node? ==> o[j].Kind().Node? && i <= j
  {
    if ParentOf(o, k - 1) != Some(l) || (!o[k - 1].Kind().Node? && ToAt(o, l, k - 1).Some?) || !o[l].Kind().Link? {
      j := ToOrigin(o, l, k - 1);
    } else {
      j := k - 1;
      forall i: nat | ChildOf(o, i, l) && i < j && o[i].Kind().Node?
        ensures o[j].Kind().Node?
      {
        ChildSetsTo(o, i, l);
        ToStays(o, l, i + 1, j);
      }
    }
  }

  lemma {:induction false} ToSettles(o: seq<Comp>, l: nat, j: nat, k: nat)
    requires l < |o| && j <= k <= |o| && ToAt(o, l, j).Some?
    requires forall i: nat :: j <= i < k && ChildOf(o, i, l) ==> !o[i].Kind().Node?
    ensures ToAt(o, l, k) == ToAt(o, l, j)
  {
    if j < k { ToSettles(o, l, j, k - 1); }
  }

  lemma {:induction false} ChildSetsTo(o: seq<Comp>, c: nat, l: nat)
    requires ChildOf(o, c, l) && o[l].Kind().Link? && !o[c].Kind().Other?
    ensures ToAt(o, l, c + 1).Some?
  {
  }

  /** Names tell links apart: no two links are ever given the same `to`. */
  lemma ToTellsLinksApart(o: seq<Comp>, l: nat, j: nat, m: nat, k: nat)
    requires UniqueNames(o) && NewNamesFresh(o) && NewNamesApart(o)
    requires l < |o| && m < |o| && j <= |o| && k <= |o|
    requires ToAt(o, l, j).Some? && ToAt(o, l, j) == ToAt(o, m, k)
    ensures l == m
  {
    var a := ToOrigin(o, l, j);
    var b := ToOrigin(o, m, k);
  }

  /** Entry in the result, in closed form. */
  function FinalEntry(o: seq<Comp>, c: nat): Option<string>
    requires c < |o|
  {
    match o[c].Kind()
    case Node => Some(o[c].name)
    case Other => None
    case _ => EntryAt(o, c)
  }

  ghost predicate FinallyFeeds(o: seq<Comp>, l: nat, name: Option<string>) {
    l < |o| && name.Some? && ToAt(o, l, |o|) == name
  }

  lemma EntryInResult(o: seq<Comp>, c: nat)
    requires Bare(o) && c < |o|
    ensures |o| <= |Run(o, |o|)| && Entry(Run(o, |o|), c) == FinalEntry(o, c)
  {
    var s := Run(o, |o|);
    RunProgress(o, |o|);
    assert s[c] == Expected(o, |o|, c, s[c].phases);
  }

  lemma NodeFedByParentOnly(o: seq<Comp>, c: nat, l: nat, k: nat)
    requires UniqueNames(o) && NewNamesFresh(o) && c < |o| && l < |o| && k <= |o|
    requires ToAt(o, l, k) == Some(o[c].name)
    ensures ChildOf(o, c, l) && o[c].Kind().Node? && o[l].Kind().Link?
  {
    var j := ToOrigin(o, l, k);
  }

  lemma FeedsInResult(o: seq<Comp>, l: nat, name: Option<string>)
    requires Bare(o)
    ensures Feeds(Run(o, |o|), l, name) <==> FinallyFeeds(o, l, name)
  {
    var s := Run(o, |o|);
    RunProgress(o, |o|);
    if l < |o| {
      assert s[l] == Expected(o, |o|, l, s[l].phases);
      if ToAt(o, l, |o|).Some? { var j := ToOrigin(o, l, |o|); }
    } else if l < |s| {
      assert MadeUp(o, s[l]);
    }
  }

  lemma UnfedInResult(o: seq<Comp>, name: Option<string>)
    requires Bare(o) && forall l: nat :: !FinallyFeeds(o, l, name)
    ensures IsFeed(Run(o, |o|), name, [])
  {
    forall l | 0 <= l < |Run(o, |o|)|
      ensures !Feeds(Run(o, |o|), l, name)
    {
      FeedsInResult(o, l, name);
    }
  }

  // ------------------------------------------------------------------ the theorem

  /** A component that is not connected sits at nothing, or at a node nothing feeds. */
  lemma UnattachedIsUnfed(o: seq<Comp>, c: nat)
    requires Bare(o) && UniqueNames(o) && NewNamesFresh(o) && c < |o| && !Attachable(o, c)
    ensures IsFeed(Run(o, |o|), FinalEntry(o, c), [])
  {
    var entry := FinalEntry(o, c);
    if o[c].Kind().Node? {
      forall l: nat
        ensures !FinallyFeeds(o, l, entry)
      {
        if FinallyFeeds(o, l, entry) {
          NodeFedByParentOnly(o, c, l, |o|);
        }
      }
    } else {
      assert entry.None?;
    }
    UnfedInResult(o, entry);
  }

  lemma FedByParent(o: seq<Comp>, c: nat, p: nat)
    requires Bare(o) && NodeFirst(o) && ChildOf(o, c, p)
    requires o[p].Kind().Link? && !o[c].Kind().Other?
    ensures FinallyFeeds(o, p, FinalEntry(o, c))
  {
    EntryBelowLink(o, c, p);
    forall i: nat | c < i < |o| && ChildOf(o, i, p)
      ensures !o[i].Kind().Node?
    {
      assert ChildOf(o, c, p) && ChildOf(o, i, p);
    }
    ToSettles(o, p, c + 1, |o|);
  }

  lemma ExtendFeed(s: seq<Comp>, name: Option<string>, ls: seq<nat>, l: nat)
    requires Feeds(s, l, name) && IsFeed(s, s[l].from_, ls)
    ensures IsFeed(s, name, ls + [l])
  {
    assert (ls + [l])[..|ls|] == ls;
  }

  lemma {:induction false} PathHolds(o: seq<Comp>, rank: seq<nat>, c: nat)
    requires Bare(o) && UniqueNames(o) && NewNamesFresh(o) && Acyclic(o, rank) && c < |o|
    requires NodeFirst(o) && AllAttach(o, rank)
    ensures IsFeed(Run(o, |o|), FinalEntry(o, c), LinkAncestors(o, rank, c))
    decreases rank[c]
  {
    if !Attachable(o, c) {
      UnattachedIsUnfed(o, c);
    } else {
      var p := ParentOf(o, c).value;
      assert ChildOf(o, c, p);
      PathHolds(o, rank, p);
      if o[p].Kind().Link? {
        FedByParent(o, c, p);
        FeedsInResult(o, p, FinalEntry(o, c));
        EntryInResult(o, p);
        ExtendFeed(Run(o, |o|), FinalEntry(o, c), LinkAncestors(o, rank, p), p);
      } else {
        assert LinkAncestors(o, rank, p) + [] == LinkAncestors(o, rank, p);
      }
    }
  }

  /** An empty feed path is the only one for a node nothing feeds. */
  lemma UnfedHasNoLinks(s: seq<Comp>, name: Option<string>, ls: seq<nat>)
    requires IsFeed(s, name, []) && IsFeed(s, name, ls)
    ensures ls == []
  {
  }

  lemma EntryBelowLink(o: seq<Comp>, i: nat, l: nat)
    requires ChildOf(o, i, l) && o[l].Kind().Link? && !o[i].Kind().Other?
    ensures FinalEntry(o, i) == ToAt(o, l, i + 1) && FinalEntry(o, i).Some?
  {
    ChildSetsTo(o, i, l);
  }

  lemma OvertakenNotFed(o: seq<Comp>, i: nat, j: nat, l: nat, m: nat)
    requires UniqueNames(o) && NewNamesFresh(o) && NewNamesApart(o)
    requires ChildOf(o, i, l) && ChildOf(o, j, l) && i < j
    requires o[l].Kind().Link? && o[j].Kind().Node? && !o[i].Kind().Other?
    ensures !FinallyFeeds(o, m, ToAt(o, l, i + 1))
  {
    hide NewNamesApart, NewNamesFresh, UniqueNames, ToAt;
    if FinallyFeeds(o, m, ToAt(o, l, i + 1)) {
      ToTellsLinksApart(o, m, |o|, l, i + 1);
      OvertakenName(o, i, j, l);
    }
  }

  /** A child processed before a node child of the same link loses the link. */
  lemma OvertakenIsUnfed(o: seq<Comp>, i: nat, j: nat, l: nat)
    requires Converted(o) && ChildOf(o, i, l) && ChildOf(o, j, l) && i < j
    requires o[l].Kind().Link? && o[j].Kind().Node? && !o[i].Kind().Other?
    ensures IsFeed(Run(o, |o|), FinalEntry(o, i), [])
  {
    EntryBelowLink(o, i, l);
    forall m: nat
      ensures !FinallyFeeds(o, m, FinalEntry(o, i))
    {
      OvertakenNotFed(o, i, j, l, m);
    }
    UnfedInResult(o, FinalEntry(o, i));
  }

  lemma OvertakenName(o: seq<Comp>, i: nat, j: nat, l: nat)
    requires UniqueNames(o) && NewNamesFresh(o) && ChildOf(o, i, l) && ChildOf(o, j, l) && i < j
    requires o[l].Kind().Link? && o[j].Kind().Node? && !o[i].Kind().Other?
    ensures ToAt(o, l, |o|) != ToAt(o, l, i + 1)
  {
    ChildSetsTo(o, i, l);
    ToStays(o, l, i + 1, |o|);
    var last := ToOrigin(o, l, |o|);
    var first := ToOrigin(o, l, i + 1);
  }

  lemma {:induction false} ToStays(o: seq<Comp>, l: nat, j: nat, k: nat)
    requires l < |o| && j <= k <= |o| && ToAt(o, l, j).Some?
    ensures ToAt(o, l, k).Some?
  {
    if j < k { ToStays(o, l, j, k - 1); }
  }

  // ------------------------------------------------------------------ without assumptions about names

  /** The link nearest above c in the parentGuid chain. */
  ghost function NearestLink(o: seq<Comp>, rank: seq<nat>, c: nat): (r: Option<nat>)
    requires Acyclic(o, rank) && c < |o|
    ensures r.Some? ==> r.value < |o| && rank[r.value] < rank[c] && o[r.value].Kind().Link?
    decreases rank[c]
  {
    var p := ParentOf(o, c);
    if p.None? then None
    else
      assert ChildOf(o, c, p.value);
      if o[p.value].Kind().Link? then p else NearestLink(o, rank, p.value)
  }

  lemma {:induction false} AncestorsByNearest(o: seq<Comp>, rank: seq<nat>, c: nat)
    requires Acyclic(o, rank) && c < |o|
    ensures LinkAncestors(o, rank, c) ==
            match NearestLink(o, rank, c) case None => [] case Some(l) => LinkAncestors(o, rank, l) + [l]
    decreases rank[c]
  {
    var p := ParentOf(o, c);
    if p.Some? && !o[p.value].Kind().Link? {
      assert ChildOf(o, c, p.value);
      AncestorsByNearest(o, rank, p.value);
    }
  }

  /** What c is attached to is fed by the nearest link above it, or by none if there is none. */
  ghost predicate FedByNearest(o: seq<Comp>, rank: seq<nat>, c: nat)
    requires Acyclic(o, rank) && c < |o|
  {
    match NearestLink(o, rank, c)
    case None => forall l: nat :: !FinallyFeeds(o, l, FinalEntry(o, c))
    case Some(l) => FinallyFeeds(o, l, FinalEntry(o, c))
  }

  lemma {:induction false} FeedByNearest(o: seq<Comp>, rank: seq<nat>, c: nat)
    requires Bare(o) && Acyclic(o, rank) && c < |o| && forall d :: 0 <= d < |o| ==> FedByNearest(o, rank, d)
    ensures IsFeed(Run(o, |o|), FinalEntry(o, c), LinkAncestors(o, rank, c))
    decreases rank[c]
  {
    hide FinalEntry, FinallyFeeds, Feeds, Run;
    assert FedByNearest(o, rank, c);
    AncestorsByNearest(o, rank, c);
    match NearestLink(o, rank, c) {
      case None => UnfedInResult(o, FinalEntry(o, c));
      case Some(l) =>
        FeedByNearest(o, rank, l);
        FeedsInResult(o, l, FinalEntry(o, c));
        EntryInResult(o, l);
        LinkEntry(o, l);
        ExtendFeed(Run(o, |o|), FinalEntry(o, c), LinkAncestors(o, rank, l), l);
    }
  }

  lemma LinkEntry(o: seq<Comp>, l: nat)
    requires Bare(o) && l < |o| && o[l].Kind().Link?
    ensures |o| <= |Run(o, |o|)| && Run(o, |o|)[l].from_ == FinalEntry(o, l)
  {
    var s := Run(o, |o|);
    RunProgress(o, |o|);
    assert s[l] == Expected(o, |o|, l, s[l].phases);
  }

  lemma {:induction false} NearestByFeed(o: seq<Comp>, rank: seq<nat>, c: nat)
    requires Bare(o) && Acyclic(o, rank) && c < |o| && IsFeed(Run(o, |o|), FinalEntry(o, c), LinkAncestors(o, rank, c))
    ensures FedByNearest(o, rank, c)
  {
    hide FinalEntry, FinallyFeeds, Feeds, Run;
    AncestorsByNearest(o, rank, c);
    match NearestLink(o, rank, c) {
      case None =>
        forall l: nat
          ensures !FinallyFeeds(o, l, FinalEntry(o, c))
        {
          FeedsInResult(o, l, FinalEntry(o, c));
          if Feeds(Run(o, |o|), l, FinalEntry(o, c)) { FeederIsThere(Run(o, |o|), l, FinalEntry(o, c)); }
        }
      case Some(l) => FeedsInResult(o, l, FinalEntry(o, c));
    }
  }

  lemma FeederIsThere(s: seq<Comp>, l: nat, name: Option<string>)
    requires Feeds(s, l, name)
    ensures l < |s|
  {
  }

  /** Whatever the names, the pass ends and keeps the chains of links exactly when no component
      asks for phases that are not there and each ends up at a node that the nearest link above
      it feeds. */
  lemma PathsPreservedLocally(o: seq<Comp>, rank: seq<nat>)
    requires Bare(o) && Acyclic(o, rank)
    ensures PathsPreserved(o, rank) <==>
            (forall c :: 0 <= c < |o| ==> !Missing(o, c)) && (forall c :: 0 <= c < |o| ==> FedByNearest(o, rank, c))
  {
    hide FedByNearest, IsFeed, FinalEntry, Entry, Run, Missing, EndsBefore;
    EndsIff(o, |o|);
    forall c: nat | c < |o|
      ensures |o| <= |Run(o, |o|)| && Entry(Run(o, |o|), c) == FinalEntry(o, c)
    {
      EntryInResult(o, c);
    }
    if PathsPreserved(o, rank) {
      forall c | 0 <= c < |o|
        ensures FedByNearest(o, rank, c)
      {
        NearestByFeed(o, rank, c);
      }
    }
    if (forall c :: 0 <= c < |o| ==> !Missing(o, c)) && forall c :: 0 <= c < |o| ==> FedByNearest(o, rank, c) {
      forall c | 0 <= c < |o|
        ensures IsFeed(Run(o, |o|), Entry(Run(o, |o|), c), LinkAncestors(o, rank, c))
      {
        FeedByNearest(o, rank, c);
      }
    }
  }

  // ------------------------------------------------------------------ with names that do not clash

  /** There is only one chain of links to a node. */
  lemma {:induction false} FeedIsUnique(o: seq<Comp>, name: Option<string>, ls: seq<nat>, ls': seq<nat>)
    requires Converted(o) && IsFeed(Run(o, |o|), name, ls) && IsFeed(Run(o, |o|), name, ls')
    ensures ls == ls'
    decreases |ls|
  {
    hide Run, Converted;
    var s := Run(o, |o|);
    if ls == [] {
      UnfedHasNoLinks(s, name, ls');
    } else if ls' == [] {
      UnfedHasNoLinks(s, name, ls);
    } else {
      var l, m := ls[|ls| - 1], ls'[|ls'| - 1];
      OneFeeder(o, l, m, name);
      FeedIsUnique(o, s[l].from_, ls[..|ls| - 1], ls'[..|ls'| - 1]);
      assert ls == ls[..|ls| - 1] + [l] && ls' == ls'[..|ls'| - 1] + [m];
    }
  }

  lemma OneFeeder(o: seq<Comp>, l: nat, m: nat, name: Option<string>)
    requires Converted(o) && Feeds(Run(o, |o|), l, name) && Feeds(Run(o, |o|), m, name)
    ensures l == m
  {
    hide Run, Feeds;
    FeedsInResult(o, l, name);
    FeedsInResult(o, m, name);
    ToTellsLinksApart(o, l, |o|, m, |o|);
  }

  /** The pass ends and keeps the chain of links above every component exactly when everything
      below a link has phases, every component with links above it is connected, and every link
      meets its node child first. */
  lemma PathsPreservedIff(o: seq<Comp>, rank: seq<nat>)
    requires Converted(o) && Acyclic(o, rank)
    ensures PathsPreserved(o, rank) <==> PhasedBelowLinks(o) && NodeFirst(o) && AllAttach(o, rank)
  {
    hide EndsBefore, PhasedBelowLinks, Run;
    RaisesIffUnphased(o);
    var s := Run(o, |o|);
    forall c: nat | c < |o|
      ensures |o| <= |s| && Entry(s, c) == FinalEntry(o, c)
    {
      EntryInResult(o, c);
    }
    if PhasedBelowLinks(o) && NodeFirst(o) && AllAttach(o, rank) {
      forall c | 0 <= c < |o|
        ensures IsFeed(s, Entry(s, c), LinkAncestors(o, rank, c))
      {
        PathHolds(o, rank, c);
      }
    }
    if PathsPreserved(o, rank) {
      forall c | 0 <= c < |o| && LinkAncestors(o, rank, c) != []
        ensures Attachable(o, c)
      {
        if !Attachable(o, c) {
          UnattachedIsUnfed(o, c);
          UnfedHasNoLinks(s, Entry(s, c), LinkAncestors(o, rank, c));
        }
      }
      forall i: nat, j: nat, l: nat |
        ChildOf(o, i, l) && ChildOf(o, j, l) && i < j && o[l].Kind().Link? && o[j].Kind().Node?
        ensures o[i].Kind().Other?
      {
        if !o[i].Kind().Other? {
          OvertakenIsUnfed(o, i, j, l);
          UnfedHasNoLinks(s, Entry(s, i), LinkAncestors(o, rank, i));
        }
      }
    }
  }

  // ------------------------------------------------------------------ two small feeders

  lemma {:induction false} FindGuidAt(cs: seq<Comp>, guid: string, k: nat)
    requires k < |cs| && cs[k].guid == Some(guid) && forall j :: 0 <= j < k ==> cs[j].guid != Some(guid)
    ensures FindGuid(cs, guid) == Some(k)
  {
    if k > 0 { FindGuidAt(cs[1..], guid, k - 1); }
  }

  function Small(class_: Class, name: string, guid: string, parentGuid: string): Comp {
    Comp(class_, name, Some("A"), "0", "0", None, Some(guid), parentGuid, None, None, None)
  }

  /** A node, a line below it, two components below the line, and a fifth with no parent. */
  ghost predicate IsFeeder(o: seq<Comp>) {
    && |o| == 5 && o[0].Kind().Node? && o[1].Kind().Link? && Bare(o) && DistinctGuids(o)
    && ParentOf(o, 0) == None && ParentOf(o, 1) == Some(0) && ParentOf(o, 2) == Some(1) && ParentOf(o, 3) == Some(1)
    && o[4].Kind().Node? && ParentOf(o, 4) == None
  }

  const RANKS: seq<nat> := [0, 1, 2, 2, 0]

  lemma FeederIsAcyclic(o: seq<Comp>)
    requires IsFeeder(o)
    ensures Acyclic(o, RANKS)
  {
    forall i: nat, p: nat | ChildOf(o, i, p)
      ensures RANKS[p] < RANKS[i]
    {
      assert i == 1 || i == 2 || i == 3;
    }
  }

  lemma FeederAttaches(o: seq<Comp>)
    requires IsFeeder(o) && !o[2].Kind().Other? && !o[3].Kind().Other?
    ensures Acyclic(o, RANKS) && AllAttach(o, RANKS)
  {
    FeederIsAcyclic(o);
    forall c | 0 <= c < |o| && LinkAncestors(o, RANKS, c) != []
      ensures Attachable(o, c)
    {
      assert c != 0 && c != 4;
    }
  }

  /** Names of one letter do not clash with the names made up. */
  lemma OneLetterNamesApart(o: seq<Comp>)
    requires UniqueNames(o) && forall i :: 0 <= i < |o| ==> |o[i].name| == 1
    ensures NamesApart(o)
  {
    forall i: nat, p: nat, j: nat, q: nat |
      ChildOf(o, i, p) && ChildOf(o, j, q) && NewName(o, i, p) == NewName(o, j, q)
      ensures p == q
    {
      assert NewName(o, i, p)[5] == o[p].name[0] && NewName(o, j, q)[5] == o[q].name[0];
      assert o[p].name == o[q].name;
    }
  }

  /** A load listed before the node below the same line: nothing clashes, and yet the path of
      the load is lost. */
  lemma LateNodeLosesPath()
    ensures var o := [Small(GridNode, "S", "1", "0"), Small(OverheadLine, "L", "2", "1"), Small(Load, "D", "3", "2"),
                      Small(GridNode, "N", "4", "2"), Small(GridNode, "T", "5", "0")];
            Converted(o) && Acyclic(o, RANKS) && AllAttach(o, RANKS) && !NodeFirst(o) && !PathsPreserved(o, RANKS)
  {
    hide PathsPreserved, ParentOf, NamesApart, LinkAncestors, NodeFirst, Acyclic, AllAttach, EndsBefore, IsBelowLink;
    var o := [Small(GridNode, "S", "1", "0"), Small(OverheadLine, "L", "2", "1"), Small(Load, "D", "3", "2"),
              Small(GridNode, "N", "4", "2"), Small(GridNode, "T", "5", "0")];
    FeederParents(o);
    OneLetterNamesApart(o);
    LeafFirst(o);
  }

  lemma LeafFirst(o: seq<Comp>)
    requires IsFeeder(o) && o[2].Kind().Leaf? && o[3].Kind().Node? && PhasesDelivered(o) && NamesApart(o)
    ensures Acyclic(o, RANKS) && AllAttach(o, RANKS) && !NodeFirst(o) && !PathsPreserved(o, RANKS)
  {
    hide PathsPreserved, NamesApart, Acyclic, AllAttach;
    FeederAttaches(o);
    assert ChildOf(o, 2, 1) && ChildOf(o, 3, 1);
    PathsPreservedIff(o, RANKS);
  }

  /** A motor below a line: nothing clashes, everything has a case and every link meets its node
      child first, and yet the pass raises a KeyError. */
  lemma MotorBelowLineRaises()
    ensures var o := [Small(GridNode, "S", "1", "0"), Small(OverheadLine, "L", "2", "1"),
                      Small(ZIPload, "M", "3", "2").(phases := None), Small(Load, "D", "4", "2"),
                      Small(GridNode, "T", "5", "0")];
            && Converted(o) && Acyclic(o, RANKS) && NodeFirst(o) && AllAttach(o, RANKS)
            && !EndsBefore(o, |o|) && !PathsPreserved(o, RANKS)
  {
    hide PathsPreserved, ParentOf, NamesApart, LinkAncestors, NodeFirst, Acyclic, AllAttach, EndsBefore;
    var o := [Small(GridNode, "S", "1", "0"), Small(OverheadLine, "L", "2", "1"),
              Small(ZIPload, "M", "3", "2").(phases := None), Small(Load, "D", "4", "2"),
              Small(GridNode, "T", "5", "0")];
    FeederParents(o);
    OneLetterNamesApart(o);
    UnphasedLeaf(o);
  }

  lemma UnphasedLeaf(o: seq<Comp>)
    requires IsFeeder(o) && o[2].Kind().Leaf? && o[2].phases.None? && o[3].Kind().Leaf?
    requires PhasesDelivered(o) && NamesApart(o)
    ensures Acyclic(o, RANKS) && NodeFirst(o) && AllAttach(o, RANKS)
    ensures !EndsBefore(o, |o|) && !PathsPreserved(o, RANKS)
  {
    hide PathsPreserved, NamesApart, Acyclic, AllAttach, NodeFirst, EndsBefore;
    FeederAttaches(o);
    NodeComesFirst(o);
    assert IsBelowLink(o, 2);
    RaisesIffUnphased(o);
    PathsPreservedIff(o, RANKS);
  }

  lemma FeederParents(o: seq<Comp>)
    requires |o| == 5 && o[0].guid == Some("1") && o[1].guid == Some("2") && o[2].guid == Some("3") && o[3].guid == Some("4")
    requires o[4].guid == Some("5") && o[0].parentGuid == "0" && o[1].parentGuid == "1" && o[2].parentGuid == "2"
    requires o[3].parentGuid == "2" && o[4].parentGuid == "0"
    ensures ParentOf(o, 0) == None && ParentOf(o, 1) == Some(0) && ParentOf(o, 2) == Some(1) && ParentOf(o, 3) == Some(1)
    ensures ParentOf(o, 4) == None
  {
    FindGuidAt(o, "1", 0);
    FindGuidAt(o, "2", 1);
    assert forall j :: 0 <= j < 5 ==> o[j].guid != Some("0");
  }

  /** Two nodes that are both called "axb" once dots are replaced: nothing else is wrong, and yet
      the one without a line above it is fed by the line. */
  lemma ClashingNamesLosePath()
    ensures var o := [Small(GridNode, "S", "1", "0"), Small(OverheadLine, "L", "2", "1"), Small(GridNode, "axb", "3", "2"),
                      Small(Load, "D", "4", "2"), Small(GridNode, "axb", "5", "0")];
            && DistinctGuids(o) && Bare(o) && Acyclic(o, RANKS) && NodeFirst(o) && AllAttach(o, RANKS)
            && !UniqueNames(o) && !PathsPreserved(o, RANKS)
  {
    hide PathsPreserved, ParentOf, LinkAncestors, Acyclic, AllAttach, NodeFirst;
    var o := [Small(GridNode, "S", "1", "0"), Small(OverheadLine, "L", "2", "1"), Small(GridNode, "axb", "3", "2"),
              Small(Load, "D", "4", "2"), Small(GridNode, "axb", "5", "0")];
    FeederParents(o);
    FeederAttaches(o);
    NodeComesFirst(o);
    assert o[2].name == o[4].name;
    SameNameIsFed(o);
  }

  lemma NodeComesFirst(o: seq<Comp>)
    requires IsFeeder(o) && o[3].Kind().Leaf?
    ensures NodeFirst(o)
  {
    forall j: nat, l: nat | ChildOf(o, j, l) && o[l].Kind().Link?
      ensures j == 2 || j == 3
    {
      assert j < 5;
    }
  }

  lemma SameNameIsFed(o: seq<Comp>)
    requires IsFeeder(o) && Acyclic(o, RANKS) && o[2].Kind().Node? && o[3].Kind().Leaf? && o[4].name == o[2].name
    ensures !PathsPreserved(o, RANKS)
  {
    hide PathsPreserved;
    assert ToAt(o, 1, 3) == Some(o[2].name);
    assert ToAt(o, 1, 4) == Some(o[2].name);
    assert ToAt(o, 1, 5) == Some(o[2].name);
    assert FinallyFeeds(o, 1, FinalEntry(o, 4));
    assert NearestLink(o, RANKS, 4) == None;
    PathsPreservedLocally(o, RANKS);
    assert !FedByNearest(o, RANKS, 4);
  }
}
