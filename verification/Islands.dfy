/** CYME conversion: removing what the swing bus cannot feed, and splitting devices out of lines.

    A section is an edge of the feeder.  Island removal deletes every section that touches a
    node fed only from sources other than the swing bus; link splitting then subdivides line
    sections that carry a fuse, a switch, a regulator and so on.  With ids of their own for the
    devices, the second island check of the converter can no longer fail after these two passes,
    and splitting changes nothing about which original node reaches which.  With ids that clash
    it can, and the theorems say when. */
module Islands {
  datatype Section = Section(from_: string, to: string, phases: string)
  datatype Device = Device(deviceType: int, sectionName: string, location: int)

  type Sections = map<string, Section>
  type Devices = map<string, Device>

  // ------------------------------------------------------------------ nodes and reachability

  ghost predicate IsFrom(s: Sections, n: string) {
    exists l :: l in s && s[l].from_ == n
  }

  ghost predicate IsTo(s: Sections, n: string) {
    exists l :: l in s && s[l].to == n
  }

  ghost predicate IsNode(s: Sections, n: string) {
    IsFrom(s, n) || IsTo(s, n)
  }

  predicate Joins(section: Section, a: string, b: string) {
    section.from_ == a && section.to == b
  }

  ghost predicate Edge(s: Sections, a: string, b: string) {
    exists l :: l in s && Joins(s[l], a, b)
  }

  ghost predicate ReachIn(s: Sections, a: string, b: string, n: nat)
    decreases n
  {
    if n == 0 then a == b
    else exists c :: Edge(s, a, c) && ReachIn(s, c, b, n - 1)
  }

  ghost predicate Reach(s: Sections, a: string, b: string) {
    exists n: nat :: ReachIn(s, a, b, n)
  }

  /** Every node a section starts from is the swing bus or the end of another section. */
  ghost predicate Rooted(s: Sections, swingBus: string) {
    forall l :: l in s ==> s[l].from_ == swingBus || IsTo(s, s[l].from_)
  }

  // ------------------------------------------------------------------ islands

  ghost predicate IsSource(s: Sections, swingBus: string, n: string) {
    IsFrom(s, n) && !IsTo(s, n) && n != swingBus
  }

  /** A set of nodes that holds the sources and whatever they feed. */
  ghost predicate Fed(s: Sections, swingBus: string, nodes: set<string>) {
    && (forall n :: IsSource(s, swingBus, n) ==> n in nodes)
    && (forall l :: l in s && s[l].from_ in nodes ==> s[l].to in nodes)
  }

  ghost predicate LeastFed(s: Sections, swingBus: string, nodes: set<string>) {
    Fed(s, swingBus, nodes) && forall other :: Fed(s, swingBus, other) ==> nodes <= other
  }

  function Without(s: Sections, nodes: set<string>): Sections {
    map l | l in s && s[l].from_ !in nodes && s[l].to !in nodes :: s[l]
  }

  /** Devices on sections that are deleted go with them. */
  function DevicesLeft(s: Sections, d: Devices, nodes: set<string>): Devices {
    map x | x in d && !(d[x].sectionName in s && d[x].sectionName !in Without(s, nodes)) :: d[x]
  }

  /** Deleting the sections that touch an island leaves no island. */
  lemma RemovalRoots(s: Sections, swingBus: string, nodes: set<string>)
    requires Fed(s, swingBus, nodes)
    ensures Rooted(Without(s, nodes), swingBus)
  {
    var r := Without(s, nodes);
    forall l | l in r && r[l].from_ != swingBus
      ensures IsTo(r, r[l].from_)
    {
      var f := s[l].from_;
      assert IsFrom(s, f) && !IsSource(s, swingBus, f);
      var k :| k in s && s[k].to == f;
      assert k in r && r[k].to == f;
    }
  }

  /** Fed by a node that sections start from and none ends at, other than the swing bus. */
  ghost predicate FedElsewhere(s: Sections, swingBus: string, n: string) {
    exists m :: (exists l :: l in s && s[l].from_ == m) && (forall l :: l in s ==> s[l].to != m) && m != swingBus && Reach(s, m, n)
  }

  lemma {:induction false} ReachStays(s: Sections, swingBus: string, nodes: set<string>, m: string, n: string, k: nat)
    requires Fed(s, swingBus, nodes) && m in nodes && ReachIn(s, m, n, k)
    ensures n in nodes
    decreases k
  {
    if k > 0 {
      var c :| Edge(s, m, c) && ReachIn(s, c, n, k - 1);
      var l :| l in s && Joins(s[l], m, c);
      ReachStays(s, swingBus, nodes, c, n, k - 1);
    }
  }

  lemma {:induction false} SourceFeedsItself(s: Sections, swingBus: string, n: string)
    requires IsSource(s, swingBus, n)
    ensures FedElsewhere(s, swingBus, n)
  {
    ReachSelf(s, n);
  }

  lemma {:induction false} FedFurther(s: Sections, swingBus: string, l: string)
    requires l in s && FedElsewhere(s, swingBus, s[l].from_)
    ensures FedElsewhere(s, swingBus, s[l].to)
  {
    hide Reach;
    var m :| (exists k :: k in s && s[k].from_ == m) && (forall k :: k in s ==> s[k].to != m) && m != swingBus && Reach(s, m, s[l].from_);
    ReachOn(s, m, l);
  }

  lemma {:induction false} ReachOn(s: Sections, m: string, l: string)
    requires l in s && Reach(s, m, s[l].from_)
    ensures Reach(s, m, s[l].to)
  {
    var k: nat :| ReachIn(s, m, s[l].from_, k);
    ReachSelf(s, s[l].to);
    assert Joins(s[l], s[l].from_, s[l].to);
    EdgeReach(s, s[l].from_, s[l].to, s[l].to);
    ReachTrans(s, m, s[l].from_, s[l].to, k);
  }

  /** The least set that holds the other sources and is closed along the sections is what they feed. */
  lemma {:induction false} IslandsAreFedElsewhere(s: Sections, swingBus: string, nodes: set<string>, n: string)
    requires LeastFed(s, swingBus, nodes)
    ensures n in nodes <==> FedElsewhere(s, swingBus, n)
  {
    hide Reach, ReachIn, FedElsewhere;
    if FedElsewhere(s, swingBus, n) { FedIsInside(s, swingBus, nodes, n); }
    var ends := (set l | l in s :: s[l].from_) + (set l | l in s :: s[l].to);
    var fed := set x | x in ends && FedElsewhere(s, swingBus, x);
    forall x | IsSource(s, swingBus, x)
      ensures x in fed
    {
      SourceFeedsItself(s, swingBus, x);
      var l :| l in s && s[l].from_ == x;
    }
    forall l | l in s && s[l].from_ in fed
      ensures s[l].to in fed
    {
      FedFurther(s, swingBus, l);
    }
    assert Fed(s, swingBus, fed);
  }

  lemma {:induction false} FedIsInside(s: Sections, swingBus: string, nodes: set<string>, n: string)
    requires Fed(s, swingBus, nodes) && FedElsewhere(s, swingBus, n)
    ensures n in nodes
  {
    var m :| (exists l :: l in s && s[l].from_ == m) && (forall l :: l in s ==> s[l].to != m) && m != swingBus && Reach(s, m, n);
    assert IsSource(s, swingBus, m);
    var k: nat :| ReachIn(s, m, n, k);
    ReachStays(s, swingBus, nodes, m, n, k);
  }

  /** What is left are the sections with neither end fed elsewhere, as they were. */
  ghost predicate OnlyFedBySwing(s: Sections, swingBus: string, t: Sections) {
    forall l :: (l in t <==> l in s && !FedElsewhere(s, swingBus, s[l].from_) && !FedElsewhere(s, swingBus, s[l].to))
                && (l in t ==> t[l] == s[l])
  }

  lemma {:induction false} RemovalIsExact(s: Sections, swingBus: string, nodes: set<string>)
    requires LeastFed(s, swingBus, nodes)
    ensures OnlyFedBySwing(s, swingBus, Without(s, nodes))
  {
    hide FedElsewhere, LeastFed;
    forall l | l in s
      ensures s[l].from_ in nodes <==> FedElsewhere(s, swingBus, s[l].from_)
      ensures s[l].to in nodes <==> FedElsewhere(s, swingBus, s[l].to)
    {
      IslandsAreFedElsewhere(s, swingBus, nodes, s[l].from_);
      IslandsAreFedElsewhere(s, swingBus, nodes, s[l].to);
    }
  }

  /** Sections do not run in circles. */
  ghost predicate Acyclic(s: Sections, rank: map<string, nat>) {
    forall l :: l in s ==> s[l].from_ in rank && s[l].to in rank && rank[s[l].from_] < rank[s[l].to]
  }

  lemma {:induction false} ReachTrans(s: Sections, a: string, b: string, c: string, n: nat)
    requires ReachIn(s, a, b, n) && Reach(s, b, c)
    ensures Reach(s, a, c)
    decreases n
  {
    if n > 0 {
      var d :| Edge(s, a, d) && ReachIn(s, d, b, n - 1);
      ReachTrans(s, d, b, c, n - 1);
      EdgeReach(s, a, d, c);
    }
  }

  lemma EdgeReach(s: Sections, a: string, b: string, c: string)
    requires Edge(s, a, b) && Reach(s, b, c)
    ensures Reach(s, a, c)
  {
    var n: nat :| ReachIn(s, b, c, n);
    assert ReachIn(s, a, c, n + 1);
  }

  lemma ReachSelf(s: Sections, a: string)
    ensures Reach(s, a, a)
  {
    assert ReachIn(s, a, a, 0);
  }

  /** In a rooted feeder without circles the swing bus feeds every section. */
  lemma {:induction false} RootedIsFedBySwing(s: Sections, swingBus: string, rank: map<string, nat>, l: string)
    requires Rooted(s, swingBus) && Acyclic(s, rank) && l in s
    ensures Reach(s, swingBus, s[l].from_)
    decreases rank[s[l].from_]
  {
    var f := s[l].from_;
    ReachSelf(s, f);
    if f != swingBus {
      var k :| k in s && s[k].to == f;
      RootedIsFedBySwing(s, swingBus, rank, k);
      assert Edge(s, s[k].from_, f);
      EdgeReach(s, s[k].from_, f, f);
      var n: nat :| ReachIn(s, swingBus, s[k].from_, n);
      ReachTrans(s, swingBus, s[k].from_, f, n);
    }
  }

  // ------------------------------------------------------------------ one split

  function NodeName(id: string): string {
    "node" + id
  }

  lemma NodeNameInjective(a: string, b: string)
    requires NodeName(a) == NodeName(b)
    ensures a == b
  {
    assert NodeName(a)[4..] == a && NodeName(b)[4..] == b;
  }

  /** What is left of the line. */
  function LinePart(line: Section, id: string, location: int): Section {
    if location == 1 then line.(from_ := NodeName(id)) else line.(to := NodeName(id))
  }

  /** A device has neither neutral nor triplex phases. */
  function StripPhases(phases: string): string {
    if phases == "" then ""
    else (if phases[0] == 'N' || phases[0] == 'D' then [] else [phases[0]]) + StripPhases(phases[1..])
  }

  /** The section the device gets. */
  function DevicePart(line: Section, id: string, location: int): Section {
    var part := if location == 1 then line.(to := NodeName(id)) else line.(from_ := NodeName(id));
    part.(phases := StripPhases(line.phases))
  }

  /** A device with the id of its own line cuts the line off at both ends. */
  function Split(s: Sections, line: string, id: string, location: int): Sections
    requires line in s
  {
    if id == line then s[line := Section(NodeName(id), NodeName(id), StripPhases(s[line].phases))]
    else s[id := DevicePart(s[line], id, location)][line := LinePart(s[line], id, location)]
  }

  lemma SplitIs(s: Sections, line: string, id: string, location: int, t: Sections)
    requires line in s && t.Keys == s.Keys + {id} && forall l :: l in s && l != id && l != line ==> t[l] == s[l]
    requires id != line ==> t[id] == DevicePart(s[line], id, location) && t[line] == LinePart(s[line], id, location)
    requires id == line ==> t[line] == Section(NodeName(id), NodeName(id), StripPhases(s[line].phases))
    ensures t == Split(s, line, id, location)
  {
    hide StripPhases, NodeName, DevicePart, LinePart;
  }

  ghost predicate Fresh(s: Sections, id: string) {
    id !in s && !IsNode(s, NodeName(id))
  }

  lemma SplitEdges(s: Sections, line: string, id: string, location: int, a: string, b: string)
    requires line in s && Fresh(s, id)
    ensures var t, x := Split(s, line, id, location), NodeName(id);
            && (Edge(t, a, x) <==> a == s[line].from_)
            && (Edge(t, x, b) <==> b == s[line].to)
            && (a != x && b != x && Edge(t, a, b) ==> Edge(s, a, b))
            && (Edge(s, a, b) ==> Edge(t, a, b) || (a == s[line].from_ && b == s[line].to))
  {
    var t, x := Split(s, line, id, location), NodeName(id);
    assert t[id] == DevicePart(s[line], id, location) && t[line] == LinePart(s[line], id, location);
    assert IsFrom(s, s[line].from_) && IsTo(s, s[line].to);
    if Edge(t, a, b) && a != x && b != x {
      var l :| l in t && Joins(t[l], a, b);
      assert l in s && s[l] == t[l];
    }
    if Edge(s, a, b) {
      var l :| l in s && Joins(s[l], a, b);
      assert l != line ==> l in t && t[l] == s[l];
    }
    SplitEdgesAtNode(s, line, id, location, a, b);
  }

  lemma SplitEdgesAtNode(s: Sections, line: string, id: string, location: int, a: string, b: string)
    requires line in s && Fresh(s, id)
    ensures var t, x := Split(s, line, id, location), NodeName(id);
            && (Edge(t, a, x) <==> a == s[line].from_)
            && (Edge(t, x, b) <==> b == s[line].to)
  {
    var t, x := Split(s, line, id, location), NodeName(id);
    assert t[id] == DevicePart(s[line], id, location) && t[line] == LinePart(s[line], id, location);
    assert IsFrom(s, s[line].from_) && IsTo(s, s[line].to);
    forall k | k in s
      ensures s[k].from_ != x && s[k].to != x
    {
      assert IsNode(s, s[k].from_) && IsNode(s, s[k].to);
    }
    assert forall k :: k in t && k != id && k != line ==> k in s && t[k] == s[k];
    if Edge(t, a, x) {
      var l :| l in t && Joins(t[l], a, x);
      assert l == id || l == line;
    }
    if Edge(t, x, b) {
      var l :| l in t && Joins(t[l], x, b);
      assert l == id || l == line;
    }
  }

  lemma {:induction false} SplitReachForward(s: Sections, line: string, id: string, location: int,
                                             a: string, b: string, n: nat)
    requires line in s && Fresh(s, id) && ReachIn(s, a, b, n)
    ensures Reach(Split(s, line, id, location), a, b)
    decreases n
  {
    var t, x := Split(s, line, id, location), NodeName(id);
    if n == 0 {
      ReachSelf(t, a);
    } else {
      var c :| Edge(s, a, c) && ReachIn(s, c, b, n - 1);
      SplitReachForward(s, line, id, location, c, b, n - 1);
      SplitEdges(s, line, id, location, a, c);
      if Edge(t, a, c) {
        EdgeReach(t, a, c, b);
      } else {
        EdgeReach(t, x, c, b);
        EdgeReach(t, a, x, b);
      }
    }
  }

  lemma {:induction false} SplitReachBackward(s: Sections, line: string, id: string, location: int,
                                              a: string, b: string, n: nat)
    requires line in s && Fresh(s, id) && ReachIn(Split(s, line, id, location), a, b, n)
    requires a != NodeName(id) && b != NodeName(id)
    ensures Reach(s, a, b)
    decreases n
  {
    var t, x := Split(s, line, id, location), NodeName(id);
    if n == 0 {
      ReachSelf(s, a);
    } else {
      var c :| Edge(t, a, c) && ReachIn(t, c, b, n - 1);
      SplitEdges(s, line, id, location, a, c);
      if c != x {
        SplitReachBackward(s, line, id, location, c, b, n - 1);
        EdgeReach(s, a, c, b);
      } else {
        var d :| Edge(t, x, d) && ReachIn(t, d, b, n - 2);
        SplitEdges(s, line, id, location, x, d);
        assert Edge(s, a, d) && IsTo(s, d);
        SplitReachBackward(s, line, id, location, d, b, n - 2);
        EdgeReach(s, a, d, b);
      }
    }
  }

  /** Splitting is subdivision: nodes other than the new one reach each other as before. */
  lemma SplitKeepsReach(s: Sections, line: string, id: string, location: int, a: string, b: string)
    requires line in s && Fresh(s, id) && a != NodeName(id) && b != NodeName(id)
    ensures Reach(Split(s, line, id, location), a, b) <==> Reach(s, a, b)
  {
    if Reach(s, a, b) {
      var n: nat :| ReachIn(s, a, b, n);
      SplitReachForward(s, line, id, location, a, b, n);
    }
    if Reach(Split(s, line, id, location), a, b) {
      var n: nat :| ReachIn(Split(s, line, id, location), a, b, n);
      SplitReachBackward(s, line, id, location, a, b, n);
    }
  }

  lemma SplitNodes(s: Sections, line: string, id: string, location: int, n: string)
    requires line in s && Fresh(s, id)
    ensures IsTo(Split(s, line, id, location), n) <==> IsTo(s, n) || n == NodeName(id)
    ensures IsFrom(Split(s, line, id, location), n) <==> IsFrom(s, n) || n == NodeName(id)
  {
    var t := Split(s, line, id, location);
    assert t[id] == DevicePart(s[line], id, location) && t[line] == LinePart(s[line], id, location);
    if IsTo(s, n) {
      var l :| l in s && s[l].to == n;
      assert t[l].to == n || t[id].to == n;
    }
    if IsFrom(s, n) {
      var l :| l in s && s[l].from_ == n;
      assert t[l].from_ == n || t[id].from_ == n;
    }
  }

  /** Some section other than the one with this id ends at n. */
  ghost predicate FedBut(s: Sections, id: string, n: string) {
    exists k :: k in s && k != id && s[k].to == n
  }

  /** Leaving the section with this id out, whatever starts a section is still fed. */
  ghost predicate StillFed(s: Sections, id: string, swingBus: string) {
    forall l :: l in s && l != id && s[l].from_ != swingBus && s[l].from_ != NodeName(id) ==> FedBut(s, id, s[l].from_)
  }

  /** Where the sections of a split feeder start and end, apart from the new node. */
  lemma {:induction false} SplitEnds(s: Sections, line: string, id: string, location: int, n: string)
    requires line in s && n != NodeName(id)
    ensures IsTo(Split(s, line, id, location), n) <==> FedBut(s, id, n)
    ensures IsFrom(Split(s, line, id, location), n) <==> exists k :: k in s && k != id && s[k].from_ == n
  {
    hide StripPhases, NodeName;
    var t := Split(s, line, id, location);
    if id == line {
      assert t[line] == Section(NodeName(id), NodeName(id), StripPhases(s[line].phases));
    } else {
      assert t[id] == DevicePart(s[line], id, location) && t[line] == LinePart(s[line], id, location);
    }
    if k :| k in s && k != id && s[k].to == n { assert t[k].to == n || t[id].to == n; }
    if k :| k in s && k != id && s[k].from_ == n { assert t[k].from_ == n || t[id].from_ == n; }
  }

  /** The new node is always fed. */
  lemma {:induction false} SplitFeedsNode(s: Sections, line: string, id: string, location: int)
    requires line in s
    ensures var t := Split(s, line, id, location);
            (id in t && t[id].to == NodeName(id)) || (line in t && t[line].to == NodeName(id) && location != 1 && line != id)
  {
    hide StripPhases, NodeName;
  }

  /** A split leaves a feeder with nothing but the swing bus for a source exactly if what starts
      the other sections is fed without the one the device takes the place of. */
  lemma {:induction false} SplitRootedIff(s: Sections, line: string, id: string, location: int, swingBus: string)
    requires line in s
    ensures Rooted(Split(s, line, id, location), swingBus) <==> StillFed(s, id, swingBus)
  {
    hide Split, NodeName, FedBut;
    var t := Split(s, line, id, location);
    SplitFeedsNode(s, line, id, location);
    if Rooted(t, swingBus) {
      forall l | l in s && l != id && s[l].from_ != swingBus && s[l].from_ != NodeName(id)
        ensures FedBut(s, id, s[l].from_)
      {
        SplitEnds(s, line, id, location, s[l].from_);
        var k :| k in t && t[k].from_ == s[l].from_;
      }
    }
    if StillFed(s, id, swingBus) {
      forall l | l in t && t[l].from_ != swingBus
        ensures IsTo(t, t[l].from_)
      {
        if t[l].from_ != NodeName(id) { SplitEnds(s, line, id, location, t[l].from_); }
      }
    }
  }

  /** Of a feeder without islands, a device with an id of its own makes none, even if the name
      of its node is taken. */
  lemma {:induction false} SplitKeepsRooted(s: Sections, line: string, id: string, location: int, swingBus: string)
    requires line in s && id !in s && Rooted(s, swingBus)
    ensures Rooted(Split(s, line, id, location), swingBus)
  {
    hide Split, NodeName;
    SplitRootedIff(s, line, id, location, swingBus);
    forall l | l in s && s[l].from_ != swingBus
      ensures FedBut(s, id, s[l].from_)
    {
      var k :| k in s && s[k].to == s[l].from_;
    }
  }

  /** Some order of the nodes goes along with all sections. */
  ghost predicate Ranked(s: Sections) {
    exists rank :: Acyclic(s, rank)
  }

  lemma {:induction false} SplitKeepsRanked(s: Sections, line: string, id: string, location: int)
    requires line in s && id != line && !IsNode(s, NodeName(id)) && Ranked(s)
    ensures Ranked(Split(s, line, id, location))
  {
    hide StripPhases, NodeName;
    var rank :| Acyclic(s, rank);
    var t, x := Split(s, line, id, location), NodeName(id);
    var rank' := (map n | n in rank :: 2 * rank[n])[x := 2 * rank[s[line].from_] + 1];
    forall l | l in t
      ensures t[l].from_ in rank' && t[l].to in rank' && rank'[t[l].from_] < rank'[t[l].to]
    {
      assert IsFrom(s, s[line].from_) && IsTo(s, s[line].to);
      if l != id && l != line {
        assert l in s && t[l] == s[l] && IsFrom(s, s[l].from_) && IsTo(s, s[l].to);
      }
    }
    assert Acyclic(t, rank');
  }

  lemma RemovalKeepsRanked(s: Sections, nodes: set<string>)
    requires Ranked(s)
    ensures Ranked(Without(s, nodes))
  {
    var rank :| Acyclic(s, rank);
    assert Acyclic(Without(s, nodes), rank);
  }

  lemma RankedIsFed(s: Sections, swingBus: string)
    requires Rooted(s, swingBus) && Ranked(s)
    ensures FedBySwing(s, swingBus)
  {
    var rank :| Acyclic(s, rank);
    forall l | l in s
      ensures Reach(s, swingBus, s[l].from_)
    {
      RootedIsFedBySwing(s, swingBus, rank, l);
    }
  }

  /** The swing bus reaches the start of every section. */
  ghost predicate FedBySwing(s: Sections, swingBus: string) {
    forall l :: l in s ==> Reach(s, swingBus, s[l].from_)
  }

  /** A device that has the id of another section takes its place, and the feeder is islanded. */
  lemma ClashingIdIslands()
    ensures var s := map["1" := Section("swing", "a", "A"), "2" := Section("a", "b", "A")];
            Rooted(s, "swing") && !Rooted(Split(s, "2", "1", 1), "swing")
  {
    var s := map["1" := Section("swing", "a", "A"), "2" := Section("a", "b", "A")];
    assert s["1"].to == "a" && IsTo(s, "a");
    var t := Split(s, "2", "1", 1);
    assert t["1"].from_ == "a" && t["1"].to == "node1" && t["2"].to == "b" && t.Keys == {"1", "2"};
    assert "node1" != "a";
    assert !IsTo(t, "a");
  }

  /** A fuse x at the end of line 1 and a switch 1 at the start of line 2: if x is split out first,
      the feeder is islanded, and if the switch is, it is not. */
  lemma {:induction false} OrderDecides()
    ensures var s := map["1" := Section("swing", "a", "A"), "2" := Section("a", "b", "A"), "3" := Section("swing", "a", "A")];
            && Rooted(s, "swing")
            && !Rooted(Split(Split(s, "1", "x", 0), "2", "1", 1), "swing")
            && Rooted(Split(Split(s, "2", "1", 1), "1", "x", 0), "swing")
  {
    hide StripPhases, Rooted, StillFed, NodeName;
    var s := map["1" := Section("swing", "a", "A"), "2" := Section("a", "b", "A"), "3" := Section("swing", "a", "A")];
    assert Rooted(s, "swing") by { FedByThree(s); }
    var t, u := Split(s, "1", "x", 0), Split(s, "2", "1", 1);
    NodeNames("1");
    NodeNames("x");
    assert NodeName("1") != NodeName("x") by { if NodeName("1") == NodeName("x") { NodeNameInjective("1", "x"); } }
    SplitRootedIff(t, "2", "1", 1, "swing");
    DeviceUnfed(t);
    SplitRootedIff(u, "1", "x", 0, "swing");
    FedInTurn(u);
  }

  lemma NodeNames(id: string)
    ensures |NodeName(id)| > 0 && NodeName(id)[0] == 'n'
  {
  }

  lemma {:induction false} FedByThree(s: Sections)
    requires s.Keys == {"1", "2", "3"} && s["1"].from_ == "swing" && s["3"].from_ == "swing" && s["3"].to == s["2"].from_
    ensures Rooted(s, "swing")
  {
  }

  lemma {:induction false} DeviceUnfed(t: Sections)
    requires t.Keys == {"1", "2", "3", "x"} && t["x"].from_ != "swing" && t["x"].from_ != NodeName("1")
    requires t["2"].to == "b" && t["3"].to == "a" && t["x"].to == "a" && t["x"].from_ !in {"a", "b"}
    ensures !StillFed(t, "1", "swing")
  {
    hide NodeName;
    var n := t["x"].from_;
    assert FedBut(t, "1", n) ==> n in {"a", "b"};
  }

  lemma {:induction false} FedInTurn(u: Sections)
    requires u.Keys == {"1", "2", "3"} && u["3"].from_ == "swing" && u["3"].to == u["1"].from_ && u["1"].to == u["2"].from_
    ensures StillFed(u, "x", "swing")
  {
    hide NodeName;
  }

  lemma SplitKeepsFresh(s: Sections, line: string, id: string, location: int, other: string)
    requires line in s && Fresh(s, id) && Fresh(s, other) && id != other
    ensures Fresh(Split(s, line, id, location), other)
  {
    SplitNodes(s, line, id, location, NodeName(other));
    if NodeName(id) == NodeName(other) { NodeNameInjective(id, other); }
  }

  // ------------------------------------------------------------------ the tables of devices

  const UNDERGROUND := 1
  const OVERHEAD := 3

  /** Fuses, regulators, three-winding transformers, transformers, switches, reclosers and
      sectionalizers, in the order they are split out. */
  const LINK_TYPES: seq<int> := [14, 4, 48, 47, 13, 10, 12]

  ghost predicate IsTable(d: Devices, deviceType: int, table: map<string, string>) {
    && (forall l :: l in table ==> table[l] in d && d[table[l]].deviceType == deviceType && d[table[l]].sectionName == l)
    && (forall x :: x in d && d[x].deviceType == deviceType ==> d[x].sectionName in table)
  }

  /** The links that sit on a line section. */
  function Cut(lines: set<string>, links: map<string, string>): set<string> {
    links.Keys * lines
  }

  /** The links whose lines are cut: ids and node names that are new, one device per id. */
  ghost predicate Splittable(s: Sections, d: Devices, lines: set<string>, links: map<string, string>) {
    && (forall l :: l in Cut(lines, links) ==> l in s && links[l] in d && Fresh(s, links[l]))
    && (forall l, m :: l in Cut(lines, links) && m in Cut(lines, links) && links[l] == links[m] ==> l == m)
  }

  /** The sections after the links in done have been split out of theirs. */
  ghost predicate AfterSplits(s: Sections, d: Devices, links: map<string, string>, done: set<string>, t: Sections)
    requires forall l :: l in done ==> l in s && l in links && links[l] in d
  {
    && t.Keys == s.Keys + (set l | l in done :: links[l])
    && (forall l :: l in done ==> t[l] == LinePart(s[l], links[l], d[links[l]].location)
                                  && t[links[l]] == DevicePart(s[l], links[l], d[links[l]].location))
    && (forall l :: l in s && l !in done ==> t[l] == s[l])
  }

  /** Splitting keeps who reaches whom among the nodes there were. */
  ghost predicate SameReach(s: Sections, t: Sections) {
    forall a, b :: IsNode(s, a) && IsNode(s, b) ==> (Reach(t, a, b) <==> Reach(s, a, b))
  }

  lemma SplitKeepsSameReach(s: Sections, t: Sections, line: string, id: string, location: int)
    requires SameReach(s, t) && line in t && Fresh(t, id) && forall n :: IsNode(s, n) ==> IsNode(t, n)
    ensures SameReach(s, Split(t, line, id, location))
    ensures forall n :: IsNode(s, n) ==> IsNode(Split(t, line, id, location), n)
  {
    forall a, b | IsNode(s, a) && IsNode(s, b)
      ensures Reach(Split(t, line, id, location), a, b) <==> Reach(s, a, b)
    {
      SplitKeepsReach(t, line, id, location, a, b);
    }
    forall n | IsNode(s, n)
      ensures IsNode(Split(t, line, id, location), n)
    {
      SplitNodes(t, line, id, location, n);
    }
  }

  function Placed(x: Device, id: string): Device {
    x.(sectionName := id, location := 0)
  }

  ghost predicate IsCutFor(links: map<string, string>, done: set<string>, id: string) {
    exists l :: l in done && l in links && links[l] == id
  }

  /** From (s, d) to (t, e) by splitting the links in done. */
  ghost predicate Subdivided(s: Sections, d: Devices, links: map<string, string>, done: set<string>,
                             t: Sections, e: Devices)
  {
    && (forall l :: l in done ==> l in s && l in links && links[l] in d)
    && AfterSplits(s, d, links, done, t)
    && e == (map x | x in d :: if IsCutFor(links, done, x) then Placed(d[x], x) else d[x])
    && SameReach(s, t)
    && (forall n :: IsNode(s, n) ==> IsNode(t, n))
    && (forall id :: Fresh(s, id) && !IsCutFor(links, done, id) ==> Fresh(t, id))
  }

  lemma {:induction false} SubdivideOneMore(s: Sections, d: Devices, lines: set<string>, links: map<string, string>,
                                            done: set<string>, t: Sections, e: Devices, link: string)
    requires Splittable(s, d, lines, links) && done <= Cut(lines, links)
    requires Subdivided(s, d, links, done, t, e) && link in Cut(lines, links) && link !in done
    ensures link in t && links[link] in e && links[link] != link && Fresh(t, links[link])
    ensures e[links[link]].location == d[links[link]].location
    ensures Subdivided(s, d, links, done + {link}, Split(t, link, links[link], d[links[link]].location),
                       e[links[link] := Placed(e[links[link]], links[link])])
  {
    var id := links[link];
    var location := d[id].location;
    assert !IsCutFor(links, done, id);
    SplitKeepsSameReach(s, t, link, id, location);
    var t', done' := Split(t, link, id, location), done + {link};
    forall x | Fresh(s, x) && !IsCutFor(links, done', x)
      ensures Fresh(t', x)
    {
      assert link in done';
      assert !IsCutFor(links, done, x) && x != id;
      SplitKeepsFresh(t, link, id, location, x);
    }
    DevicesOneMore(d, links, done, link, e);
    AfterSplitsOneMore(s, d, lines, links, done, t, link);
  }

  lemma {:induction false} DevicesOneMore(d: Devices, links: map<string, string>, done: set<string>, link: string, e: Devices)
    requires link in links && links[link] in d && !IsCutFor(links, done, links[link])
    requires e == (map x | x in d :: if IsCutFor(links, done, x) then Placed(d[x], x) else d[x])
    ensures e[links[link] := Placed(e[links[link]], links[link])] ==
            (map x | x in d :: if IsCutFor(links, done + {link}, x) then Placed(d[x], x) else d[x])
  {
    forall x
      ensures IsCutFor(links, done + {link}, x) <==> IsCutFor(links, done, x) || x == links[link]
    {
      if IsCutFor(links, done, x) {
        var l :| l in done && l in links && links[l] == x;
        assert l in done + {link};
      }
      assert link in done + {link};
    }
  }

  lemma {:induction false} SplitAt(s: Sections, line: string, id: string, location: int)
    requires line in s && id != line
    ensures var t := Split(s, line, id, location);
            && t.Keys == s.Keys + {id} && t[id] == DevicePart(s[line], id, location) && t[line] == LinePart(s[line], id, location)
            && forall l :: l in s && l != id && l != line ==> t[l] == s[l]
  {
    hide LinePart, DevicePart;
  }

  /** Ids of devices are no ids of sections, and no two links have the same. */
  lemma {:induction false} OthersDiffer(s: Sections, d: Devices, lines: set<string>, links: map<string, string>, link: string, l: string)
    requires Splittable(s, d, lines, links) && link in Cut(lines, links) && l in Cut(lines, links)
    ensures link in s && links[link] in d && links[link] !in s && links[link] != l && links[l] != link
    ensures l != link ==> links[l] != links[link]
  {
  }

  lemma {:induction false} KeysOneMore(s: Sections, links: map<string, string>, done: set<string>, link: string)
    requires link in links && forall l :: l in done ==> l in links
    ensures s.Keys + (set l | l in done + {link} :: links[l]) == s.Keys + (set l | l in done :: links[l]) + {links[link]}
  {
  }

  lemma {:induction false} AfterSplitsOneMore(s: Sections, d: Devices, lines: set<string>, links: map<string, string>,
                                              done: set<string>, t: Sections, link: string)
    requires Splittable(s, d, lines, links) && done <= Cut(lines, links)
    requires link in Cut(lines, links) && link !in done
    requires AfterSplits(s, d, links, done, t)
    ensures link in t
    ensures AfterSplits(s, d, links, done + {link}, Split(t, link, links[link], d[links[link]].location))
  {
    hide Split, LinePart, DevicePart, Fresh, Splittable;
    OthersDiffer(s, d, lines, links, link, link);
    var id, t' := links[link], Split(t, link, links[link], d[links[link]].location);
    assert t[link] == s[link];
    SplitAt(t, link, id, d[id].location);
    var done' := done + {link};
    forall l | l in done'
      ensures l in s && l in links && links[l] in d && links[l] !in s && links[l] != link && l != id
      ensures l != link ==> links[l] != id
    {
      OthersDiffer(s, d, lines, links, link, l);
      OthersDiffer(s, d, lines, links, l, link);
    }
    KeysOneMore(s, links, done, link);
    assert t'.Keys == s.Keys + (set l | l in done' :: links[l]);
    forall l | l in done'
      ensures t'[l] == LinePart(s[l], links[l], d[links[l]].location) && t'[links[l]] == DevicePart(s[l], links[l], d[links[l]].location)
    {
      if l in done { assert l in t && links[l] in t && t'[l] == t[l] && t'[links[l]] == t[links[l]]; }
    }
    forall l | l in s && l !in done'
      ensures t'[l] == s[l]
    {
      assert t[l] == s[l] && l != id;
    }
  }

  lemma {:induction false} NothingSplit(s: Sections, d: Devices, links: map<string, string>)
    ensures Subdivided(s, d, links, {}, s, d)
  {
    assert forall x :: !IsCutFor(links, {}, x);
  }

  /** The links of order split out one after the other, whatever their ids. */
  ghost function SplitInOrder(s: Sections, d: Devices, links: map<string, string>, order: seq<string>): (r: (Sections, Devices))
    ensures s.Keys <= r.0.Keys && d.Keys == r.1.Keys
  {
    if order == [] then (s, d)
    else
      var (t, e) := SplitInOrder(s, d, links, order[..|order| - 1]);
      var l := order[|order| - 1];
      if l in t && l in links && links[l] in e then
        (Split(t, l, links[l], e[links[l]].location), e[links[l] := Placed(e[links[l]], links[l])])
      else (t, e)
  }

  ghost predicate IsOrderOf(order: seq<string>, links: set<string>) {
    (forall i, j :: 0 <= i < j < |order| ==> order[i] != order[j]) && forall l :: l in order <==> l in links
  }

  lemma {:induction false} OrderOneMore(s: Sections, d: Devices, links: map<string, string>, order: seq<string>, done: set<string>, l: string)
    requires IsOrderOf(order, done) && l !in done && l in links
    ensures IsOrderOf(order + [l], done + {l})
    ensures var (t, e) := SplitInOrder(s, d, links, order);
            (l in t && links[l] in e) ==>
              (SplitInOrder(s, d, links, order + [l])
              == (Split(t, l, links[l], e[links[l]].location), e[links[l] := Placed(e[links[l]], links[l])]))
  {
    hide Split;
    assert (order + [l])[..|order|] == order;
  }

  // ------------------------------------------------------------------ ids that clash

  ghost predicate FedOutside(s: Sections, ids: set<string>, n: string) {
    exists k :: k in s && k !in ids && s[k].to == n
  }

  /** Whatever starts a section is fed by one whose place no device is going to take. */
  ghost predicate FedApart(s: Sections, swingBus: string, ids: set<string>) {
    forall l :: l in s && s[l].from_ != swingBus ==> FedOutside(s, ids, s[l].from_)
  }

  /** The names of the nodes that go in are not taken. */
  ghost predicate NodesFree(s: Sections, ids: set<string>) {
    forall x :: x in ids ==> !IsNode(s, NodeName(x))
  }

  lemma {:induction false} FedApartIsRooted(s: Sections, swingBus: string, ids: set<string>)
    requires FedApart(s, swingBus, ids)
    ensures Rooted(s, swingBus)
  {
    forall l | l in s && s[l].from_ != swingBus
      ensures IsTo(s, s[l].from_)
    {
      assert FedOutside(s, ids, s[l].from_);
    }
  }

  lemma {:induction false} FedApartFewer(s: Sections, swingBus: string, ids: set<string>, fewer: set<string>)
    requires FedApart(s, swingBus, ids) && fewer <= ids
    ensures FedApart(s, swingBus, fewer)
  {
    forall l | l in s && s[l].from_ != swingBus
      ensures FedOutside(s, fewer, s[l].from_)
    {
      var k :| k in s && k !in ids && s[k].to == s[l].from_;
    }
  }

  lemma {:induction false} FedAfterSplit(s: Sections, line: string, id: string, location: int, ids: set<string>, n: string)
    requires line in s && id in ids && FedOutside(s, ids, n) && n != NodeName(id)
    ensures FedOutside(Split(s, line, id, location), ids - {id}, n)
  {
    hide StripPhases, NodeName;
    var t := Split(s, line, id, location);
    var k :| k in s && k !in ids && s[k].to == n;
    if k != line || location == 1 {
      assert k in t && t[k].to == n;
    } else {
      assert t[id] == DevicePart(s[line], id, location);
      assert t[id].to == n;
    }
  }

  /** One split, whether or not the device takes the place of a section.  A line that is cut at
      its end must not be replaced later on, for it feeds the device from then on. */
  lemma {:induction false} SplitKeepsFedApart(s: Sections, line: string, id: string, location: int,
                                              swingBus: string, ids: set<string>)
    requires line in s && id in ids && FedApart(s, swingBus, ids)
    requires location != 1 && line != id ==> line !in ids
    ensures FedApart(Split(s, line, id, location), swingBus, ids - {id})
  {
    hide Split, NodeName, FedOutside;
    var t := Split(s, line, id, location);
    forall l | l in t && t[l].from_ != swingBus
      ensures FedOutside(t, ids - {id}, t[l].from_)
    {
      if t[l].from_ == NodeName(id) {
        NodeFedOutside(s, line, id, location, ids);
      } else {
        SplitEnds(s, line, id, location, t[l].from_);
        assert IsFrom(t, t[l].from_);
        var k :| k in s && k != id && s[k].from_ == t[l].from_;
        FedAfterSplit(s, line, id, location, ids, s[k].from_);
      }
    }
  }

  lemma {:induction false} NodeFedOutside(s: Sections, line: string, id: string, location: int, ids: set<string>)
    requires line in s && (location != 1 && line != id ==> line !in ids)
    ensures FedOutside(Split(s, line, id, location), ids - {id}, NodeName(id))
  {
    hide Split, NodeName;
    SplitFeedsNode(s, line, id, location);
  }

  lemma {:induction false} SplitKeepsNodesFree(s: Sections, line: string, id: string, location: int, ids: set<string>)
    requires line in s && NodesFree(s, ids)
    ensures NodesFree(Split(s, line, id, location), ids - {id})
  {
    hide Split, NodeName;
    var t := Split(s, line, id, location);
    forall x | x in ids - {id}
      ensures !IsNode(t, NodeName(x))
    {
      if NodeName(x) == NodeName(id) { NodeNameInjective(x, id); }
      SplitEnds(s, line, id, location, NodeName(x));
      if IsNode(t, NodeName(x)) { SplitNodesAreOld(s, line, id, location, NodeName(x)); }
    }
  }

  lemma {:induction false} SplitNodesAreOld(s: Sections, line: string, id: string, location: int, n: string)
    requires line in s && n != NodeName(id) && IsNode(Split(s, line, id, location), n)
    ensures IsNode(s, n)
  {
    hide Split, NodeName;
    SplitEnds(s, line, id, location, n);
    if k :| k in s && k != id && s[k].to == n { assert IsTo(s, n); }
    if k :| k in s && k != id && s[k].from_ == n { assert IsFrom(s, n); }
  }

  ghost function IdsOf(links: map<string, string>, order: seq<string>): set<string> {
    set l | l in order && l in links :: links[l]
  }

  /** Of the links in order each has a device of its own among ids, and no line that is cut at
      its end is to be replaced. */
  ghost predicate Harmless(d: Devices, links: map<string, string>, order: seq<string>, ids: set<string>) {
    && (forall l :: l in order ==> l in links && links[l] in d && links[l] in ids)
    && (forall l, m :: l in order && m in order && links[l] == links[m] ==> l == m)
    && (forall l :: l in order && d[links[l]].location != 1 && links[l] != l ==> l !in ids)
  }

  lemma {:induction false} HarmlessBefore(d: Devices, links: map<string, string>, order: seq<string>, ids: set<string>)
    requires order != [] && Harmless(d, links, order, ids) && forall i, j :: 0 <= i < j < |order| ==> order[i] != order[j]
    ensures var n := |order| - 1;
            && Harmless(d, links, order[..n], ids) && links[order[n]] !in IdsOf(links, order[..n])
            && IdsOf(links, order) == IdsOf(links, order[..n]) + {links[order[n]]}
  {
    var n := |order| - 1;
    assert order == order[..n] + [order[n]];
    assert forall l :: l in order[..n] ==> l in order;
  }

  /** Devices that are not among those split out are as they were. */
  lemma {:induction false} OtherDevices(s: Sections, d: Devices, links: map<string, string>, order: seq<string>)
    ensures forall x :: x in d && x !in IdsOf(links, order) ==> SplitInOrder(s, d, links, order).1[x] == d[x]
  {
    hide Split;
    if order != [] {
      var n := |order| - 1;
      OtherDevices(s, d, links, order[..n]);
      assert order[n] in order && forall l :: l in order[..n] ==> l in order;
      assert IdsOf(links, order[..n]) <= IdsOf(links, order);
    }
  }

  lemma {:induction false} LastSplit(s: Sections, d: Devices, links: map<string, string>, order: seq<string>, ids: set<string>,
                                     n: nat, l: string, id: string)
    requires |order| == n + 1 && l == order[n] && l in s && l in links && id == links[l] && id in d
    requires Harmless(d, links, order, ids) && forall i, j :: 0 <= i < j < |order| ==> order[i] != order[j]
    ensures var t := SplitInOrder(s, d, links, order[..n]).0;
            l in t && SplitInOrder(s, d, links, order).0 == Split(t, l, id, d[id].location)
  {
    hide Split;
    HarmlessBefore(d, links, order, ids);
    OtherDevices(s, d, links, order[..n]);
    OrderKeys(s, d, links, order[..n]);
  }

  /** Any number of splits, in any order. */
  lemma {:induction false} OrderKeepsFedApart(s: Sections, d: Devices, links: map<string, string>, order: seq<string>,
                                              swingBus: string, ids: set<string>)
    requires Harmless(d, links, order, ids) && forall l :: l in order ==> l in s
    requires forall i, j :: 0 <= i < j < |order| ==> order[i] != order[j]
    requires FedApart(s, swingBus, ids)
    ensures FedApart(SplitInOrder(s, d, links, order).0, swingBus, ids - IdsOf(links, order))
  {
    hide Split, FedApart, SplitInOrder, IdsOf;
    if order == [] {
      NothingInOrder(s, d, links);
      FedApartFewer(s, swingBus, ids, ids - IdsOf(links, []));
    } else {
      var n := |order| - 1;
      assert order[n] in order;
      HarmlessBefore(d, links, order, ids);
      OrderKeepsFedApart(s, d, links, order[..n], swingBus, ids);
      LastSplit(s, d, links, order, ids, n, order[n], links[order[n]]);
      var t, id := SplitInOrder(s, d, links, order[..n]).0, links[order[n]];
      SplitKeepsFedApart(t, order[n], id, d[id].location, swingBus, ids - IdsOf(links, order[..n]));
      assert ids - IdsOf(links, order[..n]) - {id} == ids - IdsOf(links, order);
    }
  }

  lemma {:induction false} OrderKeepsRanked(s: Sections, d: Devices, links: map<string, string>, order: seq<string>, ids: set<string>)
    requires Harmless(d, links, order, ids) && forall l :: l in order ==> l in s && links[l] != l
    requires forall i, j :: 0 <= i < j < |order| ==> order[i] != order[j]
    requires NodesFree(s, ids) && Ranked(s)
    ensures var t := SplitInOrder(s, d, links, order).0; NodesFree(t, ids - IdsOf(links, order)) && Ranked(t)
  {
    hide Split, SplitInOrder, IdsOf, Ranked, NodeName, IsNode;
    if order == [] {
      NothingInOrder(s, d, links);
    } else {
      var n := |order| - 1;
      assert order[n] in order;
      HarmlessBefore(d, links, order, ids);
      OrderKeepsRanked(s, d, links, order[..n], ids);
      LastSplit(s, d, links, order, ids, n, order[n], links[order[n]]);
      var t, id := SplitInOrder(s, d, links, order[..n]).0, links[order[n]];
      SplitKeepsRanked(t, order[n], id, d[id].location);
      SplitKeepsNodesFree(t, order[n], id, d[id].location, ids - IdsOf(links, order[..n]));
      assert ids - IdsOf(links, order[..n]) - {id} == ids - IdsOf(links, order);
    }
  }

  /** Which of several splits decides: the last one, whatever the ones before it did. */
  lemma {:induction false} OrderRootedIff(s: Sections, d: Devices, links: map<string, string>, order: seq<string>, swingBus: string)
    requires order != [] && forall l :: l in order ==> l in s && l in links && links[l] in d
    ensures var n := |order| - 1;
            Rooted(SplitInOrder(s, d, links, order).0, swingBus)
            <==> StillFed(SplitInOrder(s, d, links, order[..n]).0, links[order[n]], swingBus)
  {
    hide Split, Rooted, StillFed;
    var n := |order| - 1;
    var (t, e) := SplitInOrder(s, d, links, order[..n]);
    OrderKeys(s, d, links, order[..n]);
    assert order[n] in order;
    SplitRootedIff(t, order[n], links[order[n]], e[links[order[n]]].location, swingBus);
  }

  /** The links of one table. */
  lemma {:induction false} TableKeepsShape(s: Sections, d: Devices, links: map<string, string>, order: seq<string>, swingBus: string)
    requires Harmless(d, links, order, IdsOf(links, order)) && forall l :: l in order ==> l in s
    requires forall i, j :: 0 <= i < j < |order| ==> order[i] != order[j]
    ensures var t, ids := SplitInOrder(s, d, links, order).0, IdsOf(links, order);
            && (FedApart(s, swingBus, ids) ==> Rooted(t, swingBus))
            && ((NodesFree(s, ids) && Ranked(s) && forall l :: l in order ==> links[l] != l) ==> Ranked(t))
  {
    hide SplitInOrder, FedApart, Rooted, Ranked, NodesFree, IdsOf;
    var t, ids := SplitInOrder(s, d, links, order).0, IdsOf(links, order);
    if FedApart(s, swingBus, ids) {
      OrderKeepsFedApart(s, d, links, order, swingBus, ids);
      FedApartIsRooted(t, swingBus, ids - ids);
    }
    if NodesFree(s, ids) && Ranked(s) && forall l :: l in order ==> links[l] != l {
      OrderKeepsRanked(s, d, links, order, ids);
    }
  }

  /** The devices that are split out of lines, from the i-th table on. */
  ghost function ToSplit(d: Devices, lines: set<string>, i: nat): set<string>
    requires i <= |LINK_TYPES|
  {
    set x | x in d && d[x].deviceType in LINK_TYPES[i..] && d[x].sectionName in lines
  }

  /** No section that is replaced is the only one to feed a node, and a device at the end of a line
      does not sit on one that is replaced, unless the device is the one to replace it. */
  ghost predicate HarmlessIds(s: Sections, d: Devices, lines: set<string>, swingBus: string) {
    && FedApart(s, swingBus, ToSplit(d, lines, 0))
    && SitsWell(d, lines)
  }

  ghost predicate SitsWell(d: Devices, lines: set<string>) {
    forall x :: x in ToSplit(d, lines, 0) && d[x].location != 1 && d[x].sectionName != x
                ==> d[x].sectionName !in ToSplit(d, lines, 0)
  }

  /** The nodes that go in are new, and no device has the id of its own line. */
  ghost predicate NewNodes(s: Sections, d: Devices, lines: set<string>) {
    && NodesFree(s, ToSplit(d, lines, 0))
    && forall x :: x in ToSplit(d, lines, 0) ==> d[x].sectionName != x
  }

  lemma {:induction false} TypeAt(i: nat)
    requires i < |LINK_TYPES|
    ensures LINK_TYPES[i..] == [LINK_TYPES[i]] + LINK_TYPES[i + 1..] && LINK_TYPES[i] !in LINK_TYPES[i + 1..]
    ensures forall t :: t in LINK_TYPES[i..] ==> t in LINK_TYPES[0..]
  {
    TypesDiffer();
    RestOf(LINK_TYPES, i);
  }

  lemma TypesDiffer()
    ensures forall i, j :: 0 <= i < j < |LINK_TYPES| ==> LINK_TYPES[i] != LINK_TYPES[j]
  {
  }

  lemma {:induction false} RestOf(types: seq<int>, i: nat)
    requires i < |types| && forall i, j :: 0 <= i < j < |types| ==> types[i] != types[j]
    ensures types[i..] == [types[i]] + types[i + 1..] && types[i] !in types[i + 1..]
    ensures forall t :: t in types[i..] ==> t in types[0..]
  {
    assert forall j :: i <= j < |types| ==> types[j] in types[0..];
  }

  /** A table of one of the types, with its links in any order. */
  lemma {:induction false} TableHarmless(d: Devices, lines: set<string>, table: map<string, string>, i: nat, e: Devices, order: seq<string>)
    requires i < |LINK_TYPES| && IsTable(d, LINK_TYPES[i], table) && IsOrderOf(order, Cut(lines, table))
    requires SitsWell(d, lines)
    requires e.Keys == d.Keys && forall x :: x in d && d[x].deviceType in LINK_TYPES[i..] ==> e[x] == d[x]
    ensures Harmless(e, table, order, ToSplit(d, lines, i))
  {
    TypeAt(i);
    forall l | l in order
      ensures l in table && table[l] in e && table[l] in ToSplit(d, lines, i) && d[table[l]].sectionName == l && e[table[l]] == d[table[l]]
    {
    }
    assert ToSplit(d, lines, i) <= ToSplit(d, lines, 0);
  }

  lemma {:induction false} NextToSplit(d: Devices, lines: set<string>, table: map<string, string>, i: nat, order: seq<string>)
    requires i < |LINK_TYPES| && IsTable(d, LINK_TYPES[i], table) && IsOrderOf(order, Cut(lines, table))
    ensures ToSplit(d, lines, i + 1) <= ToSplit(d, lines, i) - IdsOf(table, order)
    ensures forall x :: x in IdsOf(table, order) ==> x in d && d[x].deviceType == LINK_TYPES[i]
  {
    TypeAt(i);
  }

  /** What the tables before the i-th leave for the others. */
  ghost predicate ShapeSoFar(s: Sections, d: Devices, lines: set<string>, swingBus: string, i: nat, t: Sections, e: Devices)
    requires i <= |LINK_TYPES|
  {
    && e.Keys == d.Keys && (forall x :: x in d && d[x].deviceType in LINK_TYPES[i..] ==> e[x] == d[x])
    && s.Keys <= t.Keys
    && (HarmlessIds(s, d, lines, swingBus) ==> FedApart(t, swingBus, ToSplit(d, lines, i)))
    && (SitsWell(d, lines) && NewNodes(s, d, lines) && Ranked(s) ==> NodesFree(t, ToSplit(d, lines, i)) && Ranked(t))
  }

  lemma {:induction false} ShapeAtFirst(s: Sections, d: Devices, lines: set<string>, swingBus: string)
    ensures ShapeSoFar(s, d, lines, swingBus, 0, s, d)
  {
    hide ToSplit, FedApart, Ranked, SitsWell;
  }

  lemma {:induction false} ShapeAfterTable(s: Sections, d: Devices, lines: set<string>, swingBus: string, i: nat, t: Sections, e: Devices,
                                           table: map<string, string>, order: seq<string>)
    requires i < |LINK_TYPES| && ShapeSoFar(s, d, lines, swingBus, i, t, e)
    requires IsTable(d, LINK_TYPES[i], table) && IsOrderOf(order, Cut(lines, table)) && forall l :: l in order ==> l in t
    ensures var (t', e') := SplitInOrder(t, e, table, order); ShapeSoFar(s, d, lines, swingBus, i + 1, t', e')
  {
    hide SplitInOrder, FedApart, Ranked, NodesFree, SitsWell, IdsOf, ToSplit, IsTable, IsOrderOf, NewNodes, HarmlessIds, Harmless;
    var (t', e') := SplitInOrder(t, e, table, order);
    OrderKeys(t, e, table, order);
    OtherDevices(t, e, table, order);
    NextToSplit(d, lines, table, i, order);
    TypeAt(i);
    if SitsWell(d, lines) {
      TableHarmless(d, lines, table, i, e, order);
      OrderApart(order, Cut(lines, table));
      if HarmlessIds(s, d, lines, swingBus) {
        OrderKeepsFedApart(t, e, table, order, swingBus, ToSplit(d, lines, i));
        FedApartFewer(t', swingBus, ToSplit(d, lines, i) - IdsOf(table, order), ToSplit(d, lines, i + 1));
      }
      if NewNodes(s, d, lines) && Ranked(s) {
        NoOwnLine(s, d, lines, table, i, order);
        OrderKeepsRanked(t, e, table, order, ToSplit(d, lines, i));
        NodesFreeFewer(t', ToSplit(d, lines, i) - IdsOf(table, order), ToSplit(d, lines, i + 1));
      }
    }
    HarmlessSits(s, d, lines, swingBus);
  }

  lemma {:induction false} HarmlessSits(s: Sections, d: Devices, lines: set<string>, swingBus: string)
    ensures HarmlessIds(s, d, lines, swingBus) ==> SitsWell(d, lines)
  {
    hide SitsWell, FedApart, ToSplit;
  }

  lemma {:induction false} OrderApart(order: seq<string>, links: set<string>)
    requires IsOrderOf(order, links)
    ensures forall i, j :: 0 <= i < j < |order| ==> order[i] != order[j]
  {
  }

  lemma {:induction false} NodesFreeFewer(s: Sections, ids: set<string>, fewer: set<string>)
    requires NodesFree(s, ids) && fewer <= ids
    ensures NodesFree(s, fewer)
  {
    hide NodeName, IsNode;
  }

  lemma {:induction false} NoOwnLine(s: Sections, d: Devices, lines: set<string>, table: map<string, string>, i: nat, order: seq<string>)
    requires i < |LINK_TYPES| && IsTable(d, LINK_TYPES[i], table) && IsOrderOf(order, Cut(lines, table)) && NewNodes(s, d, lines)
    ensures forall l :: l in order ==> l in table && table[l] != l
  {
    hide NodesFree;
    TypeAt(i);
    forall l | l in order
      ensures l in table && table[l] != l
    {
      assert table[l] in ToSplit(d, lines, 0);
    }
  }

  lemma {:induction false} ShapeAtLast(s: Sections, d: Devices, lines: set<string>, swingBus: string, t: Sections, e: Devices)
    requires ShapeSoFar(s, d, lines, swingBus, |LINK_TYPES|, t, e)
    ensures HarmlessIds(s, d, lines, swingBus) ==> Rooted(t, swingBus)
    ensures SitsWell(d, lines) && NewNodes(s, d, lines) && Ranked(s) ==> Ranked(t)
  {
    hide ToSplit, FedApart, Ranked, SitsWell, Rooted, NodesFree, NewNodes, HarmlessIds;
    if HarmlessIds(s, d, lines, swingBus) { FedApartIsRooted(t, swingBus, ToSplit(d, lines, |LINK_TYPES|)); }
  }

  /** Ids of their own do no harm. */
  lemma {:induction false} FreshIsHarmless(s: Sections, d: Devices, lines: set<string>, swingBus: string)
    requires FreshDevices(s, d, lines)
    ensures SitsWell(d, lines) && NewNodes(s, d, lines) && (Rooted(s, swingBus) ==> HarmlessIds(s, d, lines, swingBus))
  {
    hide NodeName;
    assert forall x :: x in ToSplit(d, lines, 0) ==> d[x].deviceType in LINK_TYPES && Fresh(s, x) && d[x].sectionName in s;
    if Rooted(s, swingBus) {
      forall l | l in s && s[l].from_ != swingBus
        ensures FedOutside(s, ToSplit(d, lines, 0), s[l].from_)
      {
        var k :| k in s && s[k].to == s[l].from_;
      }
    }
  }

  // ------------------------------------------------------------------ phases

  /** The letters of a at these positions, in this order. */
  ghost predicate PickedAt(a: string, at: seq<nat>, r: string) {
    && |at| == |r| && (forall i :: 0 <= i < |r| ==> at[i] < |a| && r[i] == a[at[i]])
    && forall i, j :: 0 <= i < j < |at| ==> at[i] < at[j]
  }

  ghost predicate Covers(a: string, at: seq<nat>) {
    forall k :: 0 <= k < |a| && a[k] != 'N' && a[k] != 'D' ==> k in at
  }

  /** r is a without neutral and triplex phases: of all other letters none is lost, added or moved. */
  ghost predicate Stripped(a: string, r: string) {
    && 'N' !in r && 'D' !in r
    && exists at :: PickedAt(a, at, r) && Covers(a, at)
  }

  function Later(at: seq<nat>): (r: seq<nat>)
    ensures |r| == |at| && forall i :: 0 <= i < |at| ==> r[i] == at[i] + 1
  {
    seq(|at|, i requires 0 <= i < |at| => at[i] + 1)
  }

  lemma {:induction false} LaterCovers(a: string, at: seq<nat>)
    requires a != "" && Covers(a[1..], at)
    ensures a[0] == 'N' || a[0] == 'D' ==> Covers(a, Later(at))
    ensures Covers(a, [0] + Later(at))
  {
    var more := [0] + Later(at);
    forall k | 0 < k < |a| && a[k] != 'N' && a[k] != 'D'
      ensures k in Later(at) && k in more
    {
      assert a[1..][k - 1] == a[k] && k - 1 in at;
      var i :| 0 <= i < |at| && at[i] == k - 1;
      assert Later(at)[i] == k && more[i + 1] == k;
    }
    assert more[0] == 0;
  }

  lemma {:induction false} PickLater(a: string, at: seq<nat>, r: string)
    requires a != "" && PickedAt(a[1..], at, r)
    ensures PickedAt(a, Later(at), r) && PickedAt(a, [0] + Later(at), [a[0]] + r)
  {
    forall i | 0 <= i < |r|
      ensures Later(at)[i] < |a| && r[i] == a[Later(at)[i]]
    {
      assert a[1..][at[i]] == a[at[i] + 1];
    }
  }

  lemma {:induction false} StripPhasesAt(a: string) returns (at: seq<nat>)
    ensures 'N' !in StripPhases(a) && 'D' !in StripPhases(a) && PickedAt(a, at, StripPhases(a)) && Covers(a, at)
  {
    hide PickedAt, Covers, Later;
    if a == "" {
      at := [];
      NothingPicked(a);
    } else {
      var rest := StripPhasesAt(a[1..]);
      var r := StripPhases(a[1..]);
      LaterCovers(a, rest);
      PickLater(a, rest, r);
      if a[0] == 'N' || a[0] == 'D' {
        at := Later(rest);
        assert StripPhases(a) == [] + r == r;
      } else {
        at := [0] + Later(rest);
        assert StripPhases(a) == [a[0]] + r;
      }
    }
  }

  lemma NothingPicked(a: string)
    ensures PickedAt(a, [], "") && (a == "" ==> Covers(a, []))
  {
  }

  lemma {:induction false} StripPhasesIs(a: string)
    ensures Stripped(a, StripPhases(a))
  {
    var at := StripPhasesAt(a);
  }

  /** There is nothing to strip twice. */
  lemma {:induction false} StripTwice(a: string)
    ensures StripPhases(StripPhases(a)) == StripPhases(a)
  {
    if a != "" {
      StripTwice(a[1..]);
      var r := StripPhases(a[1..]);
      if a[0] != 'N' && a[0] != 'D' { assert StripPhases(a) == [a[0]] + r && ([a[0]] + r)[1..] == r; } else { assert [] + r == r; }
    }
  }

  ghost predicate FromLine(s: Sections, phases: string) {
    exists m :: m in s && phases == StripPhases(s[m].phases)
  }

  /** What sections carry once devices with these ids have been split out. */
  ghost predicate PhasesAfter(s: Sections, ids: set<string>, t: Sections) {
    && t.Keys == s.Keys + ids
    && forall l :: l in t ==> if l in ids then FromLine(s, t[l].phases) else t[l].phases == s[l].phases
  }

  /** The same in other words: a device has the phases of a line without N and D, and all other
      sections, lines that were cut included, have theirs. */
  ghost predicate PhasesKept(s: Sections, ids: set<string>, t: Sections) {
    && t.Keys == s.Keys + ids
    && forall l :: l in t ==>
         if l in ids then exists m :: m in s && Stripped(s[m].phases, t[l].phases) else t[l].phases == s[l].phases
  }

  lemma {:induction false} PhasesAreKept(s: Sections, ids: set<string>, t: Sections)
    requires PhasesAfter(s, ids, t)
    ensures PhasesKept(s, ids, t)
  {
    hide Stripped, StripPhases;
    forall l | l in ids
      ensures exists m :: m in s && Stripped(s[m].phases, t[l].phases)
    {
      assert l in t;
      var m :| m in s && t[l].phases == StripPhases(s[m].phases);
      StripPhasesIs(s[m].phases);
    }
  }

  lemma {:induction false} PhasesTrans(s: Sections, ids: set<string>, t: Sections, more: set<string>, u: Sections)
    requires PhasesAfter(s, ids, t) && PhasesAfter(t, more, u)
    ensures PhasesAfter(s, ids + more, u)
  {
    hide StripPhases;
    forall l | l in u
      ensures if l in ids + more then FromLine(s, u[l].phases) else u[l].phases == s[l].phases
    {
      if l in more {
        var m :| m in t && u[l].phases == StripPhases(t[m].phases);
        if m in ids {
          var n :| n in s && t[m].phases == StripPhases(s[n].phases);
          StripTwice(s[n].phases);
        }
      }
    }
  }

  lemma {:induction false} SplitPhases(s: Sections, line: string, id: string, location: int)
    requires line in s
    ensures PhasesAfter(s, {id}, Split(s, line, id, location))
    ensures id in Split(s, line, id, location) && Split(s, line, id, location)[id].phases == StripPhases(s[line].phases)
  {
    hide StripPhases, NodeName;
    var t := Split(s, line, id, location);
    assert t[id].phases == StripPhases(s[line].phases);
  }

  lemma {:induction false} OrderPhases(s: Sections, d: Devices, links: map<string, string>, order: seq<string>)
    requires forall l :: l in order ==> l in s && l in links && links[l] in d
    ensures PhasesAfter(s, IdsOf(links, order), SplitInOrder(s, d, links, order).0)
  {
    hide Split, StripPhases;
    if order != [] {
      var n := |order| - 1;
      assert order == order[..n] + [order[n]];
      var (t, e) := SplitInOrder(s, d, links, order[..n]);
      OrderPhases(s, d, links, order[..n]);
      OrderKeys(s, d, links, order[..n]);
      SplitPhases(t, order[n], links[order[n]], e[links[order[n]]].location);
      PhasesTrans(s, IdsOf(links, order[..n]), t, {links[order[n]]}, SplitInOrder(s, d, links, order).0);
      assert IdsOf(links, order) == IdsOf(links, order[..n]) + {links[order[n]]};
    }
  }

  /** Devices that are split out sit on sections of their own, at the start of them. */
  ghost predicate Moved(d: Devices, ids: set<string>, e: Devices) {
    && e.Keys == d.Keys
    && forall x :: x in d ==> e[x] == if x in ids then Device(d[x].deviceType, x, 0) else d[x]
  }

  lemma {:induction false} OrderMoves(s: Sections, d: Devices, links: map<string, string>, order: seq<string>)
    requires forall l :: l in order ==> l in s && l in links && links[l] in d
    ensures Moved(d, IdsOf(links, order), SplitInOrder(s, d, links, order).1)
  {
    hide Split;
    if order != [] {
      var n := |order| - 1;
      assert order == order[..n] + [order[n]];
      OrderMoves(s, d, links, order[..n]);
      OrderKeys(s, d, links, order[..n]);
      assert IdsOf(links, order) == IdsOf(links, order[..n]) + {links[order[n]]};
    }
  }

  lemma {:induction false} MovedTrans(d: Devices, ids: set<string>, e: Devices, more: set<string>, f: Devices)
    requires Moved(d, ids, e) && Moved(e, more, f)
    ensures Moved(d, ids + more, f)
  {
  }

  /** A section that an underground or overhead line runs along. */
  ghost predicate RunsAlong(d: Devices, l: string) {
    exists y :: y in d && d[y].deviceType in {1, 3} && d[y].sectionName == l
  }

  /** Which devices are split out: of each line section with a fuse, regulator, three-winding
      transformer, transformer, switch, recloser or sectionalizer one of the type, and no others. */
  ghost predicate SplitOut(d: Devices, ids: set<string>) {
    && (forall x :: x in ids ==> x in d && d[x].deviceType in {14, 4, 48, 47, 13, 10, 12} && RunsAlong(d, d[x].sectionName))
    && (forall x :: x in d && d[x].deviceType in {14, 4, 48, 47, 13, 10, 12} && RunsAlong(d, d[x].sectionName) ==>
                      OneIsOut(d, ids, d[x].deviceType, d[x].sectionName))
  }

  ghost predicate SplitOutSoFar(d: Devices, lines: set<string>, types: seq<int>, ids: set<string>) {
    && (forall x :: x in ids ==> x in d && d[x].deviceType in types && d[x].sectionName in lines)
    && (forall x :: x in d && d[x].deviceType in types && d[x].sectionName in lines ==> OneIsOut(d, ids, d[x].deviceType, d[x].sectionName))
  }

  ghost predicate OneIsOut(d: Devices, ids: set<string>, type_: int, l: string) {
    exists z :: z in ids && z in d && d[z].deviceType == type_ && d[z].sectionName == l
  }

  lemma {:induction false} SplitOutNext(d: Devices, lines: set<string>, types: seq<int>, ids: set<string>,
                                        type_: int, table: map<string, string>, order: seq<string>)
    requires SplitOutSoFar(d, lines, types, ids) && IsTable(d, type_, table) && IsOrderOf(order, Cut(lines, table))
    ensures SplitOutSoFar(d, lines, types + [type_], ids + IdsOf(table, order))
  {
    var more := IdsOf(table, order);
    forall x | x in d && d[x].deviceType in types + [type_] && d[x].sectionName in lines
      ensures OneIsOut(d, ids + more, d[x].deviceType, d[x].sectionName)
    {
      var l := d[x].sectionName;
      if d[x].deviceType in types {
        var z :| z in ids && d[z].deviceType == d[x].deviceType && d[z].sectionName == l;
        assert z in ids + more;
      } else {
        assert l in order && table[l] in more;
        assert table[l] in ids + more;
      }
    }
  }

  lemma {:induction false} SplitOutAll(d: Devices, ids: set<string>)
    requires SplitOutSoFar(d, LinesOf(d), LINK_TYPES[..|LINK_TYPES|], ids)
    ensures SplitOut(d, ids)
  {
    hide RunsAlong;
    assert LINK_TYPES[..|LINK_TYPES|] == [14, 4, 48, 47, 13, 10, 12];
    forall l
      ensures l in LinesOf(d) <==> RunsAlong(d, l)
    {
      AlongLines(d, l);
    }
  }

  lemma {:induction false} AlongLines(d: Devices, l: string)
    ensures l in LinesOf(d) <==> RunsAlong(d, l)
  {
  }

  /** With ids of their own: each device has the phases of the line it was on, less N and D. */
  ghost predicate FromOwnLine(s: Sections, d: Devices, ids: set<string>, t: Sections) {
    forall x :: x in ids ==>
      x in d && x !in s && d[x].sectionName in s && x in t && t[x].phases == StripPhases(s[d[x].sectionName].phases)
  }

  ghost predicate StrippedFromOwnLine(s: Sections, d: Devices, ids: set<string>, t: Sections) {
    forall x :: x in ids ==>
      x in d && x !in s && d[x].sectionName in s && x in t && Stripped(s[d[x].sectionName].phases, t[x].phases)
  }

  lemma {:induction false} FromOwnLineIs(s: Sections, d: Devices, ids: set<string>, t: Sections)
    requires FromOwnLine(s, d, ids, t)
    ensures StrippedFromOwnLine(s, d, ids, t)
  {
    hide Stripped, StripPhases;
    forall x | x in ids
      ensures Stripped(s[d[x].sectionName].phases, t[x].phases)
    {
      StripPhasesIs(s[d[x].sectionName].phases);
    }
  }

  lemma {:induction false} NoPhasesYet(s: Sections, d: Devices, lines: set<string>)
    ensures PhasesAfter(s, {}, s) && Moved(d, {}, d) && SplitOutSoFar(d, lines, LINK_TYPES[..0], {}) && FromOwnLine(s, d, {}, s)
  {
    hide StripPhases;
  }

  lemma {:induction false} OwnLineNext(s: Sections, d: Devices, lines: set<string>, ids: set<string>, i: nat, t: Sections, e: Devices,
                                       table: map<string, string>, order: seq<string>, u: Sections, e': Devices)
    requires i < |LINK_TYPES| && FreshDevices(s, d, lines) && FromOwnLine(s, d, ids, t) && PhasesAfter(s, ids, t)
    requires IsTable(d, LINK_TYPES[i], table) && IsOrderOf(order, Cut(lines, table))
    requires Subdivided(t, e, table, Cut(lines, table), u, e')
    ensures FromOwnLine(s, d, ids + IdsOf(table, order), u)
  {
    hide StripPhases, NodeName, FreshDevices, SameReach;
    forall x | x in ids + IdsOf(table, order)
      ensures x in d && x !in s && d[x].sectionName in s && x in u && u[x].phases == StripPhases(s[d[x].sectionName].phases)
    {
      if x in IdsOf(table, order) {
        var l :| l in order && l in table && table[l] == x;
        FreshAt(s, d, lines, i, x);
        assert u[x].phases == StripPhases(t[l].phases);
        assert l in s && l !in ids;
      } else {
        assert x !in Cut(lines, table) by { if x in Cut(lines, table) { FreshAt(s, d, lines, i, table[x]); } }
        assert u[x] == t[x];
      }
    }
  }

  lemma {:induction false} FreshAt(s: Sections, d: Devices, lines: set<string>, i: nat, x: string)
    requires i < |LINK_TYPES| && FreshDevices(s, d, lines) && x in d && d[x].deviceType == LINK_TYPES[i] && d[x].sectionName in lines
    ensures d[x].sectionName in s && x !in s
  {
  }

  /** The island nodes on the way: no repeats, all sources, nothing that is not fed by one. */
  ghost predicate Growing(s: Sections, swingBus: string, nodes: seq<string>) {
    && (forall i, j :: 0 <= i < j < |nodes| ==> nodes[i] != nodes[j])
    && (forall n :: n in nodes ==> n in Names(s))
    && (forall n :: IsSource(s, swingBus, n) ==> n in nodes)
    && (forall other: set<string> :: Fed(s, swingBus, other) ==> forall n :: n in nodes ==> n in other)
  }

  ghost predicate ClosedUnder(s: Sections, links: set<string>, nodes: seq<string>)
    requires links <= s.Keys
  {
    forall l :: l in links && s[l].from_ in nodes ==> s[l].to in nodes
  }

  ghost function Names(s: Sections): set<string> {
    (set l | l in s :: s[l].from_) + (set l | l in s :: s[l].to)
  }

  lemma {:induction false} GrowingStep(s: Sections, swingBus: string, nodes: seq<string>, l: string)
    requires Growing(s, swingBus, nodes) && l in s && s[l].from_ in nodes && s[l].to !in nodes
    ensures Growing(s, swingBus, nodes + [s[l].to])
  {
  }

  lemma {:induction false} GrownIsLeast(s: Sections, swingBus: string, nodes: seq<string>)
    requires Growing(s, swingBus, nodes) && ClosedUnder(s, s.Keys, nodes)
    ensures LeastFed(s, swingBus, set n | n in nodes)
  {
  }

  class Network {
    var sections: Sections
    var devices: Devices
    const swingBus: string

    constructor (sections: Sections, devices: Devices, swingBus: string)
      ensures this.sections == sections && this.devices == devices && this.swingBus == swingBus
    {
      this.sections, this.devices, this.swingBus := sections, devices, swingBus;
    }

    /** Lines 1035-1042 and 1161-1164. */
    method Endpoints() returns (fromNodes: seq<string>, toNodes: seq<string>)
      ensures forall n :: n in fromNodes <==> IsFrom(sections, n)
      ensures forall n :: n in toNodes <==> IsTo(sections, n)
    {
      fromNodes, toNodes := [], [];
      var todo := sections.Keys;
      while todo != {}
        invariant todo <= sections.Keys
        invariant forall n :: n in fromNodes <==> exists l :: l in sections && l !in todo && sections[l].from_ == n
        invariant forall n :: n in toNodes <==> exists l :: l in sections && l !in todo && sections[l].to == n
      {
        var link :| link in todo;
        if sections[link].from_ !in fromNodes {
          fromNodes := fromNodes + [sections[link].from_];
        }
        if sections[link].to !in toNodes {
          toNodes := toNodes + [sections[link].to];
        }
        todo := todo - {link};
      }
    }

    /** Lines 1043-1046 and 1165-1168: start nodes nothing feeds, except the swing bus. */
    method Sources() returns (islandNodes: seq<string>)
      ensures forall n :: n in islandNodes <==> IsSource(sections, swingBus, n)
      ensures forall i, j :: 0 <= i < j < |islandNodes| ==> islandNodes[i] != islandNodes[j]
    {
      var fromNodes, toNodes := Endpoints();
      islandNodes := [];
      for i := 0 to |fromNodes|
        invariant forall n :: n in islandNodes <==> n in fromNodes[..i] && n !in toNodes && n != swingBus
        invariant forall j, k :: 0 <= j < k < |islandNodes| ==> islandNodes[j] != islandNodes[k]
      {
        var node := fromNodes[i];
        if node !in toNodes && node != swingBus && node !in islandNodes {
          islandNodes := islandNodes + [node];
        }
      }
    }

    /** Lines 1051-1054: one pass along the sections. */
    method Grow(start: seq<string>) returns (islandNodes: seq<string>)
      requires Growing(sections, swingBus, start)
      ensures Growing(sections, swingBus, islandNodes) && |start| <= |islandNodes|
      ensures |start| == |islandNodes| ==> ClosedUnder(sections, sections.Keys, islandNodes)
    {
      islandNodes := start;
      var todo := sections.Keys;
      while todo != {}
        invariant todo <= sections.Keys && |start| <= |islandNodes|
        invariant Growing(sections, swingBus, islandNodes)
        invariant |start| == |islandNodes| ==> ClosedUnder(sections, sections.Keys - todo, islandNodes)
      {
        var link :| link in todo;
        if sections[link].from_ in islandNodes && sections[link].to !in islandNodes {
          GrowingStep(sections, swingBus, islandNodes, link);
          islandNodes := islandNodes + [sections[link].to];
        }
        todo := todo - {link};
      }
      assert sections.Keys - {} == sections.Keys;
    }

    /** Lines 1047-1055: the islands grow along the sections until a pass adds nothing. */
    method IslandNodes() returns (islandNodes: seq<string>)
      ensures LeastFed(sections, swingBus, set n | n in islandNodes)
    {
      islandNodes := Sources();
      assert Growing(sections, swingBus, islandNodes);
      SizeAtMost(islandNodes, Names(sections));
      var islands, nislands := 0, |islandNodes|;
      while nislands != islands
        invariant nislands == |islandNodes| <= |Names(sections)|
        invariant Growing(sections, swingBus, islandNodes)
        invariant nislands == islands ==> ClosedUnder(sections, sections.Keys, islandNodes)
        decreases |Names(sections)| - nislands + (if nislands != islands then 1 else 0)
      {
        islands := |islandNodes|;
        islandNodes := Grow(islandNodes);
        SizeAtMost(islandNodes, Names(sections));
        nislands := |islandNodes|;
      }
      GrownIsLeast(sections, swingBus, islandNodes);
    }

    /** Lines 1056-1065. */
    method RemoveIslands() returns (ghost nodes: set<string>)
      modifies this
      ensures LeastFed(old(sections), swingBus, nodes)
      ensures sections == Without(old(sections), nodes) && OnlyFedBySwing(old(sections), swingBus, sections)
      ensures forall x :: x in devices <==> x in old(devices) && (old(devices)[x].sectionName in old(sections) ==>
                                                                    old(devices)[x].sectionName in sections)
      ensures forall x :: x in devices ==> devices[x] == old(devices)[x]
      ensures devices == DevicesLeft(old(sections), old(devices), nodes)
      ensures Rooted(sections, swingBus)
    {
      var islandNodes := IslandNodes();
      nodes := set n | n in islandNodes;
      var deleteSections: set<string> := {};
      for i := 0 to |islandNodes|
        invariant deleteSections == set l | l in sections && (sections[l].from_ in islandNodes[..i] || sections[l].to in islandNodes[..i])
      {
        var node := islandNodes[i];
        assert islandNodes[..i + 1] == islandNodes[..i] + [node];
        deleteSections := deleteSections + set l | l in sections && (node == sections[l].from_ || node == sections[l].to);
      }
      assert islandNodes[..|islandNodes|] == islandNodes;
      ghost var was := sections;
      sections := sections - deleteSections;
      assert sections == Without(was, nodes);
      devices := map x | x in devices && devices[x].sectionName !in deleteSections :: devices[x];
      RemovalRoots(was, swingBus, nodes);
      RemovalIsExact(was, swingBus, nodes);
    }

    /** Grouping the devices of one type by section; of two on one section either may win. */
    method GroupDevices(deviceType: int) returns (table: map<string, string>)
      ensures IsTable(devices, deviceType, table)
    {
      table := map[];
      var todo := devices.Keys;
      while todo != {}
        invariant todo <= devices.Keys
        invariant forall l :: l in table ==> table[l] in devices && devices[table[l]].deviceType == deviceType && devices[table[l]].sectionName == l
        invariant forall x :: x in devices && x !in todo && devices[x].deviceType == deviceType ==> devices[x].sectionName in table
      {
        var device :| device in todo;
        if devices[device].deviceType == deviceType {
          table := table[devices[device].sectionName := device];
        }
        todo := todo - {device};
      }
    }

    /** Lines 334-356: cutting one line for its device. */
    method SplitLink(lineId: string, newLinkId: string)
      requires lineId in sections && newLinkId in devices
      modifies this
      ensures sections == Split(old(sections), lineId, newLinkId, old(devices)[newLinkId].location)
      ensures devices == old(devices)[newLinkId := Placed(old(devices)[newLinkId], newLinkId)]
      ensures PhasesKept(old(sections), {newLinkId}, sections)
      ensures Stripped(old(sections)[lineId].phases, sections[newLinkId].phases)
    {
      hide StripPhases, NodeName, Stripped, PhasesKept, PhasesAfter;
      SplitPhases(sections, lineId, newLinkId, devices[newLinkId].location);
      PhasesAreKept(sections, {newLinkId}, Split(sections, lineId, newLinkId, devices[newLinkId].location));
      StripPhasesIs(sections[lineId].phases);
      ghost var s, location := sections, devices[newLinkId].location;
      var name := NodeName(newLinkId);
      sections := sections[newLinkId := sections[lineId]];
      if devices[newLinkId].location == 1 {
        sections := sections[newLinkId := sections[newLinkId].(to := name)];
        sections := sections[lineId := sections[lineId].(from_ := name)];
      } else {
        sections := sections[newLinkId := sections[newLinkId].(from_ := name)];
        sections := sections[lineId := sections[lineId].(to := name)];
      }
      sections := sections[newLinkId := sections[newLinkId].(phases := StripPhases(sections[newLinkId].phases))];
      SplitIs(s, lineId, newLinkId, location, sections);
      devices := devices[newLinkId := devices[newLinkId].(sectionName := newLinkId, location := 0)];
    }

    /** Lines 329-356; lines holds the keys of the overhead and underground tables. */
    method SplitLinkObjects(linkDict: map<string, string>, lines: set<string>) returns (ghost order: seq<string>)
      requires forall l :: l in Cut(lines, linkDict) ==> l in sections && linkDict[l] in devices
      modifies this
      ensures IsOrderOf(order, Cut(lines, linkDict))
      ensures (sections, devices) == SplitInOrder(old(sections), old(devices), linkDict, order)
      ensures Splittable(old(sections), old(devices), lines, linkDict) ==>
                Subdivided(old(sections), old(devices), linkDict, Cut(lines, linkDict), sections, devices)
      ensures PhasesAfter(old(sections), IdsOf(linkDict, order), sections)
      ensures PhasesKept(old(sections), IdsOf(linkDict, order), sections)
      ensures Moved(old(devices), IdsOf(linkDict, order), devices)
      ensures order != [] ==>
                var n := |order| - 1;
                && order[n] in linkDict
                && (Rooted(sections, swingBus) <==>
                    StillFed(SplitInOrder(old(sections), old(devices), linkDict, order[..n]).0, linkDict[order[n]], swingBus))
      ensures Harmless(old(devices), linkDict, order, IdsOf(linkDict, order)) ==>
                && (FedApart(old(sections), swingBus, IdsOf(linkDict, order)) ==> Rooted(sections, swingBus))
                && ((NodesFree(old(sections), IdsOf(linkDict, order)) && Ranked(old(sections))
                     && forall l :: l in order ==> linkDict[l] != l) ==> Ranked(sections))
    {
      hide Split, Subdivided, Splittable, Rooted, Ranked, SplitInOrder, Fresh, Placed, Harmless, FedApart, NodesFree, StillFed,
        PhasesKept, PhasesAfter, Stripped, Moved;
      ghost var s, d := sections, devices;
      ghost var done: set<string> := {};
      order := [];
      NothingSplit(s, d, linkDict);
      NothingInOrder(s, d, linkDict);
      var todo := linkDict.Keys;
      while todo != {}
        invariant todo <= linkDict.Keys && done <= Cut(lines, linkDict) && IsOrderOf(order, done)
        invariant s.Keys <= sections.Keys && devices.Keys == d.Keys
        invariant forall l :: l in linkDict && l in lines ==> (l in done <==> l !in todo)
        invariant (sections, devices) == SplitInOrder(s, d, linkDict, order)
        invariant Splittable(s, d, lines, linkDict) ==> Subdivided(s, d, linkDict, done, sections, devices)
      {
        var link :| link in todo;
        if link in lines {
          assert link in Cut(lines, linkDict);
          OrderOneMore(s, d, linkDict, order, done, link);
          if Splittable(s, d, lines, linkDict) {
            SubdivideOneMore(s, d, lines, linkDict, done, sections, devices, link);
          }
          SplitLink(link, linkDict[link]);
          done, order := done + {link}, order + [link];
          OrderKeys(s, d, linkDict, order);
        }
        todo := todo - {link};
      }
      assert done == Cut(lines, linkDict);
      assert forall l :: l in order ==> l in s && l in linkDict && linkDict[l] in d;
      OrderPhases(s, d, linkDict, order);
      OrderMoves(s, d, linkDict, order);
      PhasesAreKept(s, IdsOf(linkDict, order), sections);
      if order != [] {
        assert order[|order| - 1] in order;
        OrderRootedIff(s, d, linkDict, order, swingBus);
      }
      if Harmless(d, linkDict, order, IdsOf(linkDict, order)) {
        OrderApart(order, done);
        TableKeepsShape(s, d, linkDict, order, swingBus);
      }
    }

    /** Lines 1105-1107: all the tables in turn. */
    method SplitAll(lines: set<string>) returns (ghost ids: set<string>)
      requires SectionsThere(sections, devices, lines)
      modifies this
      ensures PhasesKept(old(sections), ids, sections) && Moved(old(devices), ids, devices)
      ensures SplitOutSoFar(old(devices), lines, LINK_TYPES[..|LINK_TYPES|], ids)
      ensures FreshDevices(old(sections), old(devices), lines) ==>
                StrippedFromOwnLine(old(sections), old(devices), ids, sections)
      ensures old(sections).Keys <= sections.Keys && devices.Keys == old(devices).Keys
      ensures HarmlessIds(old(sections), old(devices), lines, swingBus) ==> Rooted(sections, swingBus)
      ensures SitsWell(old(devices), lines) && NewNodes(old(sections), old(devices), lines) && Ranked(old(sections)) ==> Ranked(sections)
      ensures FreshDevices(old(sections), old(devices), lines) ==>
                && SameReach(old(sections), sections)
                && forall x :: x in old(devices) && old(devices)[x].deviceType !in LINK_TYPES ==> devices[x] == old(devices)[x]
    {
      hide SplitSoFar, Subdivided, Splittable, SameReach, Rooted, Ranked, FreshDevices, SplitInOrder, SectionsThere, ShapeSoFar,
        HarmlessIds, SitsWell, NewNodes, Harmless, FedApart, NodesFree, StillFed, IdsOf, IsTable, Cut,
        PhasesKept, PhasesAfter, SplitOutSoFar, FromOwnLine, StrippedFromOwnLine, Moved;
      ghost var s, d := sections, devices;
      var tables: seq<map<string, string>> := [];
      for i := 0 to |LINK_TYPES|
        invariant sections == s && devices == d
        invariant |tables| == i && forall j :: 0 <= j < i ==> IsTable(devices, LINK_TYPES[j], tables[j])
      {
        var table := GroupDevices(LINK_TYPES[i]);
        tables := tables + [table];
      }
      if FreshDevices(s, d, lines) { NoTableSplit(s, d, lines, tables); }
      ShapeAtFirst(s, d, lines, swingBus);
      ids := {};
      NoPhasesYet(s, d, lines);
      for i := 0 to |LINK_TYPES|
        invariant |tables| == |LINK_TYPES| && forall j :: 0 <= j < |tables| ==> IsTable(d, LINK_TYPES[j], tables[j])
        invariant s.Keys <= sections.Keys && devices.Keys == d.Keys
        invariant ShapeSoFar(s, d, lines, swingBus, i, sections, devices)
        invariant FreshDevices(s, d, lines) ==> SplitSoFar(s, d, lines, tables, i, sections, devices)
        invariant PhasesAfter(s, ids, sections) && Moved(d, ids, devices) && SplitOutSoFar(d, lines, LINK_TYPES[..i], ids)
        invariant FreshDevices(s, d, lines) ==> FromOwnLine(s, d, ids, sections)
      {
        ghost var t, e := sections, devices;
        TableThere(s, d, lines, tables[i], LINK_TYPES[i]);
        if FreshDevices(s, d, lines) { NextTableSplittable(s, d, lines, tables, i, t, e); }
        ghost var order := SplitLinkObjects(tables[i], lines);
        OrderKeys(t, e, tables[i], order);
        ShapeAfterTable(s, d, lines, swingBus, i, t, e, tables[i], order);
        if FreshDevices(s, d, lines) {
          NextTableSplit(s, d, lines, tables, i, t, e, sections, devices);
          OwnLineNext(s, d, lines, ids, i, t, e, tables[i], order, sections, devices);
        }
        PhasesTrans(s, ids, t, IdsOf(tables[i], order), sections);
        MovedTrans(d, ids, e, IdsOf(tables[i], order), devices);
        SplitOutNext(d, lines, LINK_TYPES[..i], ids, LINK_TYPES[i], tables[i], order);
        assert LINK_TYPES[..i + 1] == LINK_TYPES[..i] + [LINK_TYPES[i]];
        ids := ids + IdsOf(tables[i], order);
      }
      ShapeAtLast(s, d, lines, swingBus, sections, devices);
      PhasesAreKept(s, ids, sections);
      if FreshDevices(s, d, lines) { FromOwnLineIs(s, d, ids, sections); }
      if FreshDevices(s, d, lines) { AllTablesSplit(s, d, lines, tables, sections, devices); }
    }

    /** Lines 1149-1171: the feeder is islanded if something but the swing bus starts a path. */
    method IsIslanded() returns (islanded: bool)
      ensures islanded <==> !Rooted(sections, swingBus)
    {
      var islandNodes := Sources();
      islanded := false;
      for i := 0 to |islandNodes|
        invariant islanded <==> i > 0
      {
        assert IsSource(sections, swingBus, islandNodes[i]) by { assert islandNodes[i] in islandNodes; }
        if islandNodes[i] != swingBus {
          islanded := true;
        }
      }
      if islanded {
        assert IsSource(sections, swingBus, islandNodes[0]) by { assert islandNodes[0] in islandNodes; }
        var l :| l in sections && sections[l].from_ == islandNodes[0];
      } else {
        forall l | l in sections && sections[l].from_ != swingBus
          ensures IsTo(sections, sections[l].from_)
        {
          assert IsFrom(sections, sections[l].from_) && sections[l].from_ !in islandNodes;
        }
      }
    }

    /** The passes in the order of convertCymeModel.  If no section that is replaced was the only
        one to feed a node, the error of line 1171 cannot happen; if moreover the nodes that go in
        are new and there are no circles, the swing bus reaches every section.  Devices with ids
        of their own meet both conditions. */
    method ConvertSections() returns (islanded: bool, ghost nodes: set<string>, ghost ids: set<string>)
      requires SectionsThere(sections, devices, LinesOf(devices))
      modifies this
      ensures var t, d := Without(old(sections), nodes), DevicesLeft(old(sections), old(devices), nodes);
              && SplitOut(d, ids) && PhasesKept(t, ids, sections) && Moved(d, ids, devices)
              && (FreshDevices(old(sections), old(devices), LinesOf(old(devices))) ==> StrippedFromOwnLine(t, d, ids, sections))
      ensures LeastFed(old(sections), swingBus, nodes) && (islanded <==> !Rooted(sections, swingBus))
      ensures OnlyFedBySwing(old(sections), swingBus, Without(old(sections), nodes))
      ensures var t, d := Without(old(sections), nodes), DevicesLeft(old(sections), old(devices), nodes);
              HarmlessIds(t, d, LinesOf(d), swingBus) ==>
                && !islanded
                && (NewNodes(t, d, LinesOf(d)) && Ranked(old(sections)) ==> FedBySwing(sections, swingBus))
      ensures FreshDevices(old(sections), old(devices), LinesOf(old(devices))) ==>
                && !islanded && SameReach(Without(old(sections), nodes), sections)
                && (Ranked(old(sections)) ==> FedBySwing(sections, swingBus))
    {
      hide Ranked, LeastFed, SameReach, FedBySwing, SectionsThere, FreshDevices, LinesOf, Rooted, Without, DevicesLeft,
        HarmlessIds, NewNodes, SitsWell, OnlyFedBySwing, Moved, PhasesKept, SplitOut, SplitOutSoFar, StrippedFromOwnLine;
      ghost var s, d := sections, devices;
      nodes := RemoveIslands();
      ghost var t, e := sections, devices;
      RemovalKeepsThere(s, d, nodes, e);
      if FreshDevices(s, d, LinesOf(d)) {
        RemovalKeepsFresh(s, d, nodes, e);
        FreshIsHarmless(t, e, LinesOf(e), swingBus);
      }
      if Ranked(s) { RemovalKeepsRanked(s, nodes); }
      HarmlessSits(t, e, LinesOf(e), swingBus);
      ids := SplitAll(LinesOf(devices));
      SplitOutAll(e, ids);
      islanded := IsIslanded();
      if Ranked(sections) && Rooted(sections, swingBus) { RankedIsFed(sections, swingBus); }
    }
  }

  lemma {:induction false} NothingInOrder(s: Sections, d: Devices, links: map<string, string>)
    ensures SplitInOrder(s, d, links, []) == (s, d)
  {
  }

  lemma {:induction false} OrderKeys(s: Sections, d: Devices, links: map<string, string>, order: seq<string>)
    ensures s.Keys <= SplitInOrder(s, d, links, order).0.Keys && d.Keys == SplitInOrder(s, d, links, order).1.Keys
  {
    hide SplitInOrder;
  }

  /** What keeps lines 335 to 356 from a KeyError: devices to be split out sit on sections there are. */
  ghost predicate SectionsThere(s: Sections, d: Devices, lines: set<string>) {
    forall x :: x in d && d[x].deviceType in LINK_TYPES && d[x].sectionName in lines ==> d[x].sectionName in s
  }

  lemma {:induction false} TableThere(s: Sections, d: Devices, lines: set<string>, table: map<string, string>, type_: int)
    requires SectionsThere(s, d, lines) && IsTable(d, type_, table) && type_ in LINK_TYPES
    ensures forall l :: l in Cut(lines, table) ==> l in s && table[l] in d
  {
  }

  lemma {:induction false} RemovalKeepsThere(s: Sections, d: Devices, nodes: set<string>, e: Devices)
    requires SectionsThere(s, d, LinesOf(d))
    requires e == DevicesLeft(s, d, nodes)
    ensures SectionsThere(Without(s, nodes), e, LinesOf(e))
  {
    forall x | x in e && e[x].deviceType in LINK_TYPES && e[x].sectionName in LinesOf(e)
      ensures e[x].sectionName in Without(s, nodes)
    {
      assert d[x].sectionName in LinesOf(d);
    }
  }

  lemma {:induction false} NoTableSplit(s: Sections, d: Devices, lines: set<string>, tables: seq<map<string, string>>)
    requires FreshDevices(s, d, lines) && |tables| == |LINK_TYPES|
    requires forall j :: 0 <= j < |tables| ==> IsTable(d, LINK_TYPES[j], tables[j])
    ensures SplitSoFar(s, d, lines, tables, 0, s, d)
  {
    hide Fresh, IsTable;
  }

  lemma {:induction false} AllTablesSplit(s: Sections, d: Devices, lines: set<string>, tables: seq<map<string, string>>, t: Sections, e: Devices)
    requires |tables| == |LINK_TYPES| && SplitSoFar(s, d, lines, tables, |LINK_TYPES|, t, e)
    ensures SameReach(s, t)
    ensures forall x :: x in d && d[x].deviceType !in LINK_TYPES ==> x in e && e[x] == d[x]
  {
    hide Fresh, IsTable, SameReach;
  }

  /** The sections of devices of the two line types. */
  function LinesOf(d: Devices): set<string> {
    set x | x in d && (d[x].deviceType == UNDERGROUND || d[x].deviceType == OVERHEAD) :: d[x].sectionName
  }

  /** Devices to be split out sit on sections there are, and nothing is named after them yet. */
  ghost predicate FreshDevices(s: Sections, d: Devices, lines: set<string>) {
    forall x :: x in d && d[x].deviceType in LINK_TYPES && d[x].sectionName in lines
                ==> d[x].sectionName in s && Fresh(s, x)
  }

  lemma {:induction false} RemovalKeepsFresh(s: Sections, d: Devices, nodes: set<string>, e: Devices)
    requires FreshDevices(s, d, LinesOf(d))
    requires e == DevicesLeft(s, d, nodes)
    ensures FreshDevices(Without(s, nodes), e, LinesOf(e))
  {
    var t := Without(s, nodes);
    forall x | x in e && e[x].deviceType in LINK_TYPES && e[x].sectionName in LinesOf(e)
      ensures e[x].sectionName in t && Fresh(t, x)
    {
      assert d[x].sectionName in LinesOf(d);
      assert IsFrom(t, NodeName(x)) ==> IsFrom(s, NodeName(x));
      assert IsTo(t, NodeName(x)) ==> IsTo(s, NodeName(x));
    }
  }

  /** The state after the first i tables. */
  ghost predicate SplitSoFar(s: Sections, d: Devices, lines: set<string>, tables: seq<map<string, string>>, i: nat,
                             t: Sections, e: Devices)
    requires |tables| == |LINK_TYPES| && i <= |tables|
  {
    && FreshDevices(s, d, lines)
    && (forall j :: 0 <= j < |tables| ==> IsTable(d, LINK_TYPES[j], tables[j]))
    && SameReach(s, t) && (forall n :: IsNode(s, n) ==> IsNode(t, n)) && s.Keys <= t.Keys
    && e.Keys == d.Keys
    && (forall x :: x in d && (forall j :: 0 <= j < i ==> d[x].deviceType != LINK_TYPES[j]) ==> e[x] == d[x])
    && (forall x :: x in d && (forall j :: 0 <= j < i ==> d[x].deviceType != LINK_TYPES[j]) && Fresh(s, x) ==> Fresh(t, x))
  }

  lemma {:induction false} NextTableSplittable(s: Sections, d: Devices, lines: set<string>, tables: seq<map<string, string>>,
                                               i: nat, t: Sections, e: Devices)
    requires |tables| == |LINK_TYPES| && i < |tables| && SplitSoFar(s, d, lines, tables, i, t, e)
    ensures Splittable(t, e, lines, tables[i])
  {
    var links, type_ := tables[i], LINK_TYPES[i];
    assert IsTable(d, type_, links);
    TypesDiffer();
    forall l | l in Cut(lines, links)
      ensures l in t && links[l] in e && Fresh(t, links[l])
    {
      var x := links[l];
      assert d[x].deviceType == type_ && type_ in LINK_TYPES && d[x].sectionName == l;
    }
  }

  lemma {:induction false} NotCutBefore(d: Devices, lines: set<string>, tables: seq<map<string, string>>, i: nat, x: string)
    requires |tables| == |LINK_TYPES| && i < |tables| && IsTable(d, LINK_TYPES[i], tables[i])
    requires x in d && d[x].deviceType != LINK_TYPES[i]
    ensures !IsCutFor(tables[i], Cut(lines, tables[i]), x)
  {
  }

  lemma {:induction false} NextTableSplit(s: Sections, d: Devices, lines: set<string>, tables: seq<map<string, string>>, i: nat,
                                          t: Sections, e: Devices, t': Sections, e': Devices)
    requires |tables| == |LINK_TYPES| && i < |tables| && SplitSoFar(s, d, lines, tables, i, t, e)
    requires Subdivided(t, e, tables[i], Cut(lines, tables[i]), t', e')
    ensures SplitSoFar(s, d, lines, tables, i + 1, t', e')
  {
    forall a, b | IsNode(s, a) && IsNode(s, b)
      ensures Reach(t', a, b) <==> Reach(s, a, b)
    {
      assert IsNode(t, a) && IsNode(t, b);
    }
    assert IsTable(d, LINK_TYPES[i], tables[i]);
    forall x | x in d && forall j :: 0 <= j < i + 1 ==> d[x].deviceType != LINK_TYPES[j]
      ensures e'[x] == d[x] && (Fresh(s, x) ==> Fresh(t', x))
    {
      assert d[x].deviceType != LINK_TYPES[i];
      NotCutBefore(d, lines, tables, i, x);
    }
  }

  lemma {:induction false} SizeAtMost(xs: seq<string>, names: set<string>)
    requires forall i, j :: 0 <= i < j < |xs| ==> xs[i] != xs[j]
    requires forall x :: x in xs ==> x in names
    ensures |xs| <= |names|
  {
    if xs != [] {
      var n := |xs| - 1;
      SizeAtMost(xs[..n], names - {xs[n]});
    }
  }
}
