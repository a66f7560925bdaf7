/** CYME conversion: spreading the nominal voltage from the swing buses.

    Repeated passes over the objects, in whatever order, copy a voltage along `from`/`to` and
    from parent to child until a pass adds nothing; a transformer hands on the secondary
    voltage of its configuration instead.  The result covers exactly the names the swing
    buses reach, every value is the one some path from a swing bus carries, and on a radial
    feeder that fixes every value whatever the order of the passes. */
module Voltage {
  import opened Prelude

  datatype Class = Transformer | Regulator | OtherClass

  datatype Obj = Obj(class_: Class, name: Option<string>, isSwing: bool, nominalVoltage: string,
                     from_: Option<string>, to: Option<string>, parent: Option<string>,
                     configuration: string, secondaryVoltage: Option<string>)

  type Glm = map<nat, Obj>

  // ------------------------------------------------------------------ what a voltage should be

  /** The ways a voltage gets from one name to another. */
  datatype Edge = Along(k: nat) | ToChild(k: nat)

  ghost predicate IsEdge(glm: Glm, e: Edge) {
    && e.k in glm
    && if e.Along? then glm[e.k].from_.Some? && glm[e.k].to.Some?
       else glm[e.k].parent.Some? && glm[e.k].name.Some?
  }

  ghost function Source(glm: Glm, e: Edge): string
    requires IsEdge(glm, e)
  {
    if e.Along? then glm[e.k].from_.value else glm[e.k].parent.value
  }

  ghost function Target(glm: Glm, e: Edge): string
    requires IsEdge(glm, e)
  {
    if e.Along? then glm[e.k].to.value else glm[e.k].name.value
  }

  /** `'SPCT' in name` */
  predicate IsSplitPhase(name: string) {
    exists i :: 0 <= i < |name| && StartsWithSpct(name[i..])
  }

  predicate StartsWithSpct(s: string) {
    |s| >= 4 && s[..4] == "SPCT"
  }

  lemma {:induction false} SplitPhaseIff(name: string)
    ensures IsSplitPhase(name) <==> exists a, b :: name == a + "SPCT" + b
  {
    if IsSplitPhase(name) {
      var i :| 0 <= i < |name| && StartsWithSpct(name[i..]);
      assert name == name[..i] + name[i..][..4] + name[i..][4..];
    }
    if a, b :| name == a + "SPCT" + b {
      assert name[|a|..] == "SPCT" + b && ("SPCT" + b)[..4] == "SPCT";
      assert StartsWithSpct(name[|a|..]);
    }
  }

  ghost predicate HasConfiguration(glm: Glm, o: Obj, y: nat) {
    y in glm && glm[y].name == Some(o.configuration) && glm[y].secondaryVoltage.Some?
  }

  /** What keeps the pass from a KeyError or an unbound `nv`: links have both ends and a name,
      children have names, and configurations of transformers resolve to objects that all have a
      secondary voltage.  Names need not be unique. */
  ghost predicate Complete(glm: Glm) {
    && (forall k :: k in glm && glm[k].from_.Some? ==> glm[k].to.Some? && glm[k].name.Some?)
    && (forall k :: k in glm && (glm[k].parent.Some? || glm[k].isSwing) ==> glm[k].name.Some?)
    && (forall k :: k in glm && glm[k].class_.Transformer? && glm[k].from_.Some? && !IsSplitPhase(glm[k].name.value)
                    ==> Resolves(glm, glm[k]))
  }

  ghost predicate Resolves(glm: Glm, o: Obj) {
    && (exists y :: HasConfiguration(glm, o, y))
    && forall y :: y in glm && glm[y].name == Some(o.configuration) ==> glm[y].secondaryVoltage.Some?
  }

  /** A voltage the far side of a transformer can get: where several configurations share a name,
      it depends on the order which of them counts. */
  ghost predicate IsSecondary(glm: Glm, o: Obj, v: string) {
    && o.name.Some?
    && if IsSplitPhase(o.name.value) then v == "120.0"
       else exists y :: HasConfiguration(glm, o, y) && glm[y].secondaryVoltage == Some(v)
  }

  ghost predicate IsStep(glm: Glm, e: Edge) {
    e.Along? && e.k in glm && glm[e.k].class_.Transformer?
  }

  /** A path of edges that ends at the name, from the name of the object swing. */
  ghost predicate IsPath(glm: Glm, swing: nat, p: seq<Edge>, n: string)
    decreases |p|
  {
    if p == [] then swing in glm && glm[swing].isSwing && glm[swing].name == Some(n)
    else
      var e := p[|p| - 1];
      IsEdge(glm, e) && Target(glm, e) == n && IsPath(glm, swing, p[..|p| - 1], Source(glm, e))
  }

  /** The path carries a secondary voltage of the nearest transformer upstream, or else that of
      the swing bus. */
  ghost predicate CarriesAlong(glm: Glm, swing: nat, p: seq<Edge>, v: string)
    decreases |p|
  {
    if p == [] then swing in glm && glm[swing].nominalVoltage == v
    else
      var e := p[|p| - 1];
      if IsStep(glm, e) then IsSecondary(glm, glm[e.k], v) else CarriesAlong(glm, swing, p[..|p| - 1], v)
  }

  ghost predicate Reached(glm: Glm, n: string) {
    exists swing, p :: IsPath(glm, swing, p, n)
  }

  /** Some path carries this voltage to this name. */
  ghost predicate Carried(glm: Glm, n: string, v: string) {
    exists swing, p :: IsPath(glm, swing, p, n) && CarriesAlong(glm, swing, p, v)
  }

  lemma {:induction false} CarryOn(glm: Glm, e: Edge, v: string, w: string)
    requires IsEdge(glm, e) && Carried(glm, Source(glm, e), v)
    requires if IsStep(glm, e) then IsSecondary(glm, glm[e.k], w) else w == v
    ensures Carried(glm, Target(glm, e), w)
  {
    hide IsSecondary;
    var swing, p :| IsPath(glm, swing, p, Source(glm, e)) && CarriesAlong(glm, swing, p, v);
    var q := p + [e];
    assert q[..|q| - 1] == p && q[|q| - 1] == e;
    assert IsPath(glm, swing, q, Target(glm, e)) && CarriesAlong(glm, swing, q, w);
  }

  // ------------------------------------------------------------------ radial feeders

  /** Every name is the end of at most one edge, no edge ends at a swing bus, and swing buses
      have names of their own. */
  ghost predicate Radial(glm: Glm) {
    && (forall e, f :: IsEdge(glm, e) && IsEdge(glm, f) && Target(glm, e) == Target(glm, f) ==> e == f)
    && (forall e, k :: IsEdge(glm, e) && k in glm && glm[k].isSwing ==> glm[k].name != Some(Target(glm, e)))
    && (forall k, l :: k in glm && l in glm && glm[k].isSwing && glm[l].isSwing && glm[k].name.Some? && glm[k].name == glm[l].name
                       ==> k == l)
  }

  lemma {:induction false} OnePath(glm: Glm, s: nat, p: seq<Edge>, t: nat, q: seq<Edge>, n: string)
    requires Radial(glm) && IsPath(glm, s, p, n) && IsPath(glm, t, q, n)
    ensures s == t && p == q
    decreases |p|
  {
    if p != [] && q != [] {
      var e, f := p[|p| - 1], q[|q| - 1];
      assert e == f;
      OnePath(glm, s, p[..|p| - 1], t, q[..|q| - 1], Source(glm, e));
      assert p == p[..|p| - 1] + [e] && q == q[..|q| - 1] + [f];
    }
  }

  /** Configurations that share a name agree. */
  ghost predicate OneVoltageEach(glm: Glm) {
    forall k, v, w :: k in glm && IsSecondary(glm, glm[k], v) && IsSecondary(glm, glm[k], w) ==> v == w
  }

  lemma {:induction false} OneVoltageAlong(glm: Glm, swing: nat, p: seq<Edge>, v: string, w: string)
    requires OneVoltageEach(glm) && CarriesAlong(glm, swing, p, v) && CarriesAlong(glm, swing, p, w)
    ensures v == w
    decreases |p|
  {
    hide IsSecondary;
    if p != [] && !IsStep(glm, p[|p| - 1]) { OneVoltageAlong(glm, swing, p[..|p| - 1], v, w); }
  }

  /** On a radial feeder the voltage of a name does not depend on the path, hence not on the
      order in which the passes meet the objects, unless configurations that share a name differ. */
  lemma {:induction false} RadialFixesVoltage(glm: Glm, n: string, v: string, swing: nat, p: seq<Edge>)
    requires Radial(glm) && Carried(glm, n, v) && IsPath(glm, swing, p, n)
    ensures CarriesAlong(glm, swing, p, v)
    ensures OneVoltageEach(glm) ==> forall w :: Carried(glm, n, w) ==> w == v
  {
    hide IsPath, CarriesAlong, Radial, OneVoltageEach;
    forall w | Carried(glm, n, w)
      ensures CarriesAlong(glm, swing, p, w)
    {
      var s, q :| IsPath(glm, s, q, n) && CarriesAlong(glm, s, q, w);
      OnePath(glm, swing, p, s, q, n);
    }
    if OneVoltageEach(glm) {
      forall w | Carried(glm, n, w)
        ensures w == v
      {
        OneVoltageAlong(glm, swing, p, v, w);
      }
    }
  }

  // ------------------------------------------------------------------ the passes

  /** No edge leaves the names that have a voltage, as far as the objects in ks go. */
  ghost predicate Saturated(glm: Glm, ks: set<nat>, names: set<string>) {
    forall e :: IsEdge(glm, e) && e.k in ks && Source(glm, e) in names ==> Target(glm, e) in names
  }

  ghost predicate AllCarried(glm: Glm, volt: map<string, string>) {
    forall n :: n in volt ==> Carried(glm, n, volt[n])
  }

  function Targets(glm: Glm): set<string> {
    (set k | k in glm && glm[k].to.Some? :: glm[k].to.value) + (set k | k in glm && glm[k].name.Some? :: glm[k].name.value)
  }

  lemma {:induction false} SaturatedReaches(glm: Glm, names: set<string>, swing: nat, p: seq<Edge>, n: string)
    requires Saturated(glm, glm.Keys, names) && IsPath(glm, swing, p, n)
    requires forall k :: k in glm && glm[k].isSwing && glm[k].name.Some? ==> glm[k].name.value in names
    ensures n in names
    decreases |p|
  {
    if p != [] {
      var e := p[|p| - 1];
      SaturatedReaches(glm, names, swing, p[..|p| - 1], Source(glm, e));
    }
  }

  lemma {:induction false} SaturatedAt(glm: Glm, x: nat, volt: map<string, string>)
    requires Complete(glm) && x in glm
    requires var o := glm[x]; o.from_.Some? && o.from_.value in volt ==> o.to.value in volt
    requires var o := glm[x]; o.parent.Some? && o.parent.value in volt ==> o.name.value in volt
    ensures Saturated(glm, {x}, volt.Keys)
  {
  }

  lemma {:induction false} CompleteAt(glm: Glm, x: nat)
    requires Complete(glm) && x in glm
    ensures var o := glm[x];
            && (o.from_.Some? ==> o.to.Some? && o.name.Some?) && (o.parent.Some? || o.isSwing ==> o.name.Some?)
            && (o.class_.Transformer? && o.from_.Some? ==> IsSplitPhase(o.name.value) || Resolves(glm, o))
  {
    hide IsSplitPhase, Resolves;
  }

  /** One more name gets a voltage some path carries to it. */
  lemma {:induction false} Assigned(glm: Glm, volt: map<string, string>, e: Edge, v: string)
    requires AllCarried(glm, volt) && IsEdge(glm, e) && Target(glm, e) !in volt && Carried(glm, Target(glm, e), v)
    ensures Target(glm, e) in Targets(glm) && |volt[Target(glm, e) := v]| == |volt| + 1
    ensures AllCarried(glm, volt[Target(glm, e) := v])
  {
    hide Carried;
  }

  /** How the voltages next to each other are related. */
  ghost predicate StepsDown(glm: Glm, volt: map<string, string>, k: nat)
    requires k in glm
  {
    var o := glm[k];
    && (o.from_.Some? && o.to.Some? && o.from_.value in volt && o.to.value in volt ==>
          if !o.class_.Transformer? then volt[o.to.value] == volt[o.from_.value]
          else
            && o.name.Some?
            && if exists a, b :: o.name.value == a + "SPCT" + b then volt[o.to.value] == "120.0"
               else exists y :: y in glm && glm[y].name == Some(o.configuration) && glm[y].secondaryVoltage == Some(volt[o.to.value]))
    && (o.parent.Some? && o.name.Some? && o.parent.value in volt && o.name.value in volt ==> volt[o.name.value] == volt[o.parent.value])
  }

  /** On a radial feeder: links and children have the voltage of what is before them, and behind
      a transformer it is 120.0 or what its configuration says. */
  lemma {:induction false} RadialSteps(glm: Glm, volt: map<string, string>, k: nat)
    requires Radial(glm) && OneVoltageEach(glm) && k in glm
    requires forall n, v :: Carried(glm, n, v) ==> n in volt && volt[n] == v
    requires forall n :: n in volt ==> Carried(glm, n, volt[n])
    ensures StepsDown(glm, volt, k)
  {
    hide Radial, OneVoltageEach, Carried, IsSplitPhase;
    var o := glm[k];
    if o.from_.Some? && o.to.Some? && o.from_.value in volt && o.to.value in volt {
      if o.class_.Transformer? {
        TransformerSteps(glm, k, volt[o.to.value], volt[o.from_.value]);
      } else {
        CarryOn(glm, Along(k), volt[o.from_.value], volt[o.from_.value]);
      }
    }
    if o.parent.Some? && o.name.Some? && o.parent.value in volt && o.name.value in volt {
      CarryOn(glm, ToChild(k), volt[o.parent.value], volt[o.parent.value]);
    }
  }

  /** The only path to the far side of a transformer goes through it. */
  lemma {:induction false} TransformerSteps(glm: Glm, k: nat, v: string, w: string)
    requires Radial(glm) && k in glm && glm[k].class_.Transformer? && glm[k].from_.Some? && glm[k].to.Some?
    requires Carried(glm, glm[k].to.value, v) && Carried(glm, glm[k].from_.value, w)
    ensures glm[k].name.Some?
    ensures if exists a, b :: glm[k].name.value == a + "SPCT" + b then v == "120.0"
            else exists y :: y in glm && glm[y].name == Some(glm[k].configuration) && glm[y].secondaryVoltage == Some(v)
  {
    hide Radial, IsSplitPhase;
    var swing, p :| IsPath(glm, swing, p, glm[k].from_.value) && CarriesAlong(glm, swing, p, w);
    var q := p + [Along(k)];
    assert q[..|q| - 1] == p && q[|q| - 1] == Along(k);
    assert IsPath(glm, swing, q, glm[k].to.value);
    RadialFixesVoltage(glm, glm[k].to.value, v, swing, q);
    assert IsSecondary(glm, glm[k], v);
    SplitPhaseIff(glm[k].name.value);
  }

  class Propagation {
    const glm: Glm
    var volt: map<string, string>

    constructor (glm: Glm)
      ensures this.glm == glm && volt == map[]
    {
      this.glm, this.volt := glm, map[];
    }

    /** Lines 1810-1818. */
    method SecondaryVoltage(o: Obj) returns (nv: string)
      requires o.name.Some? && (IsSplitPhase(o.name.value) || Resolves(glm, o))
      ensures IsSecondary(glm, o, nv)
    {
      hide IsSplitPhase;
      if IsSplitPhase(o.name.value) {
        return "120.0";
      }
      ghost var c :| HasConfiguration(glm, o, c);
      nv := "";
      var todo := glm.Keys;
      while todo != {}
        invariant todo <= glm.Keys
        invariant c !in todo ==> IsSecondary(glm, o, nv)
      {
        var y :| y in todo;
        if glm[y].name == Some(o.configuration) {
          nv := glm[y].secondaryVoltage.value;
          assert HasConfiguration(glm, o, y);
        }
        todo := todo - {y};
      }
    }

    /** Lines 1806-1831, one object.  Writing band_center on regulator configurations is left out. */
    method FixOne(x: nat)
      requires Complete(glm) && x in glm && AllCarried(glm, volt)
      modifies this`volt
      ensures AllCarried(glm, volt) && volt.Keys <= old(volt).Keys + Targets(glm)
      ensures forall n :: n in old(volt) ==> n in volt && volt[n] == old(volt)[n]
      ensures |old(volt)| <= |volt|
      ensures |volt| == |old(volt)| ==> volt == old(volt) && Saturated(glm, {x}, volt.Keys)
    {
      hide Complete, Carried, Targets, Saturated, IsSecondary, IsSplitPhase, Resolves;
      CompleteAt(glm, x);
      var o := glm[x];
      if o.from_.Some? && o.from_.value in volt && o.to.value !in volt {
        var v := volt[o.from_.value];
        if o.class_.Transformer? {
          var nv := SecondaryVoltage(o);
          CarryOn(glm, Along(x), v, nv);
          Assigned(glm, volt, Along(x), nv);
          volt := volt[o.to.value := nv];
        } else {
          CarryOn(glm, Along(x), v, v);
          Assigned(glm, volt, Along(x), v);
          volt := volt[o.to.value := v];
        }
      } else if o.parent.Some? && o.parent.value in volt && o.name.value !in volt {
        CarryOn(glm, ToChild(x), volt[o.parent.value], volt[o.parent.value]);
        Assigned(glm, volt, ToChild(x), volt[o.parent.value]);
        volt := volt[o.name.value := volt[o.parent.value]];
      } else {
        SaturatedAt(glm, x, volt);
      }
    }

    /** One pass of _fixNominalVoltage, the objects in any order. */
    method FixNominalVoltage()
      requires Complete(glm) && AllCarried(glm, volt)
      modifies this`volt
      ensures AllCarried(glm, volt) && volt.Keys <= old(volt).Keys + Targets(glm)
      ensures forall n :: n in old(volt) ==> n in volt && volt[n] == old(volt)[n]
      ensures |old(volt)| <= |volt|
      ensures |volt| == |old(volt)| ==> Saturated(glm, glm.Keys, volt.Keys)
    {
      ghost var was := volt;
      var todo := glm.Keys;
      while todo != {}
        invariant todo <= glm.Keys
        invariant AllCarried(glm, volt) && volt.Keys <= was.Keys + Targets(glm)
        invariant forall n :: n in was ==> n in volt && volt[n] == was[n]
        invariant |was| <= |volt|
        invariant |volt| == |was| ==> volt == was && Saturated(glm, glm.Keys - todo, volt.Keys)
      {
        var x :| x in todo;
        FixOne(x);
        todo := todo - {x};
      }
      assert glm.Keys - {} == glm.Keys;
    }

    /** Lines 1832-1839: the swing buses start with their nominal voltage. */
    method StartFromSwing()
      requires Complete(glm)
      modifies this`volt
      ensures volt.Keys <= Targets(glm) && AllCarried(glm, volt) && SwingHas(glm, volt)
    {
      hide Targets, IsSecondary;
      volt := map[];
      var todo := glm.Keys;
      while todo != {}
        invariant todo <= glm.Keys && volt.Keys <= Targets(glm) && AllCarried(glm, volt)
        invariant forall k :: k in glm && k !in todo && glm[k].isSwing ==> glm[k].name.Some? && glm[k].name.value in volt
      {
        var obj :| obj in todo;
        if glm[obj].isSwing {
          SwingStarts(glm, obj);
          volt := volt[glm[obj].name.value := glm[obj].nominalVoltage];
        }
        todo := todo - {obj};
      }
    }

    /** Lines 1832-1844. */
    method FixVoltages()
      requires Complete(glm)
      modifies this`volt
      ensures forall n :: n in volt <==> Reached(glm, n)
      ensures AllCarried(glm, volt)
      ensures Radial(glm) ==> forall swing, p, n :: IsPath(glm, swing, p, n) ==>
                                n in volt && CarriesAlong(glm, swing, p, volt[n])
      ensures Radial(glm) && OneVoltageEach(glm) ==>
                && (forall n, v :: Carried(glm, n, v) ==> n in volt && volt[n] == v)
                && forall k :: k in glm ==> StepsDown(glm, volt, k)
    {
      hide StepsDown, OneVoltageEach, Carried, Complete, Targets, AllCarried, SwingHas, Saturated, Radial, Reached, CarriesAlong, IsPath;
      StartFromSwing();
      var previous := 0;
      var current := |volt|;
      NoVoltage(glm, volt);
      while current > previous
        invariant current == |volt| && volt.Keys <= Targets(glm) && AllCarried(glm, volt) && SwingHas(glm, volt)
        invariant 0 <= previous <= current && (current == previous ==> Saturated(glm, glm.Keys, volt.Keys))
        decreases |Targets(glm)| - current + (if current > previous then 1 else 0)
      {
        ghost var was := volt;
        FixNominalVoltage();
        SwingKeeps(glm, was, volt);
        previous := current;
        current := |volt|;
        MapSizeAtMost(volt, Targets(glm));
      }
      ExactlyReached(glm, volt);
      if Radial(glm) {
        RadialValues(glm, volt);
        if OneVoltageEach(glm) {
          RadialValue(glm, volt);
          forall k | k in glm
            ensures StepsDown(glm, volt, k)
          {
            AllAreCarried(glm, volt);
            RadialSteps(glm, volt, k);
          }
        }
      }
    }
  }

  /** Every swing bus has a voltage. */
  ghost predicate SwingHas(glm: Glm, volt: map<string, string>) {
    forall k :: k in glm && glm[k].isSwing ==> glm[k].name.Some? && glm[k].name.value in volt
  }

  lemma {:induction false} SwingStarts(glm: Glm, k: nat)
    requires Complete(glm) && k in glm && glm[k].isSwing
    ensures glm[k].name.Some? && glm[k].name.value in Targets(glm)
    ensures Carried(glm, glm[k].name.value, glm[k].nominalVoltage)
  {
    var n := glm[k].name.value;
    assert IsPath(glm, k, [], n) && CarriesAlong(glm, k, [], glm[k].nominalVoltage);
  }

  lemma {:induction false} SwingKeeps(glm: Glm, was: map<string, string>, volt: map<string, string>)
    requires SwingHas(glm, was) && was.Keys <= volt.Keys
    ensures SwingHas(glm, volt)
  {
  }

  /** Without a swing bus there is nothing to pass on. */
  lemma {:induction false} NoVoltage(glm: Glm, volt: map<string, string>)
    ensures |volt| == 0 ==> Saturated(glm, glm.Keys, volt.Keys)
  {
    if |volt| == 0 { assert volt == map[]; }
  }

  lemma {:induction false} ExactlyReached(glm: Glm, volt: map<string, string>)
    requires AllCarried(glm, volt) && SwingHas(glm, volt) && Saturated(glm, glm.Keys, volt.Keys)
    ensures forall n :: n in volt <==> Reached(glm, n)
  {
    hide Saturated, CarriesAlong, IsPath;
    forall n | Reached(glm, n)
      ensures n in volt
    {
      var swing, p :| IsPath(glm, swing, p, n);
      SaturatedReaches(glm, volt.Keys, swing, p, n);
    }
    forall n | n in volt
      ensures Reached(glm, n)
    {
      assert Carried(glm, n, volt[n]);
      var swing, p :| IsPath(glm, swing, p, n) && CarriesAlong(glm, swing, p, volt[n]);
    }
  }

  lemma {:induction false} RadialValues(glm: Glm, volt: map<string, string>)
    requires Radial(glm) && AllCarried(glm, volt) && forall n :: n in volt <==> Reached(glm, n)
    ensures forall swing, p, n :: IsPath(glm, swing, p, n) ==> n in volt && CarriesAlong(glm, swing, p, volt[n])
  {
    hide Radial, CarriesAlong, IsPath;
    forall swing, p, n | IsPath(glm, swing, p, n)
      ensures n in volt && CarriesAlong(glm, swing, p, volt[n])
    {
      assert Reached(glm, n);
      RadialFixesVoltage(glm, n, volt[n], swing, p);
    }
  }

  lemma {:induction false} AllAreCarried(glm: Glm, volt: map<string, string>)
    requires AllCarried(glm, volt)
    ensures forall n :: n in volt ==> Carried(glm, n, volt[n])
  {
  }

  lemma {:induction false} RadialValue(glm: Glm, volt: map<string, string>)
    requires Radial(glm) && OneVoltageEach(glm) && AllCarried(glm, volt) && forall n :: n in volt <==> Reached(glm, n)
    ensures forall n, v :: Carried(glm, n, v) ==> n in volt && volt[n] == v
  {
    hide Radial, OneVoltageEach, CarriesAlong, IsPath;
    forall n, v | Carried(glm, n, v)
      ensures n in volt && volt[n] == v
    {
      var swing, p :| IsPath(glm, swing, p, n) && CarriesAlong(glm, swing, p, v);
      assert Reached(glm, n);
      RadialFixesVoltage(glm, n, v, swing, p);
    }
  }

  lemma {:induction false} MapSizeAtMost(m: map<string, string>, names: set<string>)
    requires m.Keys <= names
    ensures |m| <= |names|
  {
    assert |m| == |m.Keys|;
    SubsetSize(m.Keys, names);
  }

  lemma {:induction false} SubsetSize(a: set<string>, b: set<string>)
    requires a <= b
    ensures |a| <= |b|
  {
    if a != {} {
      var x :| x in a;
      SubsetSize(a - {x}, b - {x});
    }
  }
}
