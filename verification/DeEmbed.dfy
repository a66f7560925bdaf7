/** De-embedding: dicts nested in the feeder tree move to its top level and are referred to instead. */
module DeEmbed {
  import opened GlmLexer
  import opened GlmParser

  const OBJECT := "object"
  const NAME := "name"
  const PARENT := "parent"
  const CONFIG := "omfEmbeddedConfigObject"

  // ------------------------------------------------------------------ one nested dict

  predicate IsObject(kid: Dict) { OBJECT in kid.attrs }

  predicate IsConfig(kid: Dict) { CONFIG in kid.attrs }

  predicate Liftable(kid: Dict) { IsObject(kid) || IsConfig(kid) }

  function NonEmpty(words: seq<string>): seq<string> {
    if words == [] then [] else (if words[0] == "" then [] else [words[0]]) + NonEmpty(words[1..])
  }

  /** `configList`: the text of an embedded configuration, split. */
  function ConfigList(kid: Dict): seq<string> {
    if IsConfig(kid) then NonEmpty(SplitWords(kid.attrs[CONFIG], "")) else []
  }

  /** The container's key that will name the configuration. */
  function Slot(kid: Dict): string {
    var words := ConfigList(kid);
    if words == [] then "" else words[0]
  }

  function ObjectOf(kid: Dict): string {
    if IsObject(kid) then kid.attrs[OBJECT]
    else var words := ConfigList(kid); if |words| < 3 then "" else words[2]
  }

  function NameOf(attrs: map<string, string>): string {
    if NAME in attrs then attrs[NAME] else ""
  }

  function Digits(n: nat): string {
    if n < 10 then ["0123456789"[n]] else Digits(n / 10) + ["0123456789"[n % 10]]
  }

  /** Its own name, or one made of the container's name, the class and the guid. */
  function LiftedName(kid: Dict, container: string, y: nat): string {
    if NAME in kid.attrs then kid.attrs[NAME] else container + ObjectOf(kid) + Digits(y)
  }

  /** The attributes of a nested dict on the top level. */
  function LiftedAttrs(kid: Dict, container: string, y: nat): map<string, string> {
    var name := LiftedName(kid, container, y);
    if IsObject(kid) then kid.attrs[PARENT := container][NAME := name]
    else kid.attrs[NAME := name][OBJECT := ObjectOf(kid)] - {CONFIG}
  }

  function LiftedDict(kid: Dict, container: string, y: nat): Dict {
    Dict(LiftedAttrs(kid, container, y), kid.kids)
  }

  /** The container once its kid y has gone. */
  function Emptied(c: Dict, y: nat): Dict
    requires y in c.kids
  {
    var kid := c.kids[y];
    Dict(if IsObject(kid) then c.attrs else c.attrs[Slot(kid) := LiftedName(kid, NameOf(c.attrs), y)], c.kids - {y})
  }

  // ------------------------------------------------------------------ what the source expects

  /** The keys de-embedding itself reads and writes. */
  predicate IsReserved(key: string) {
    key == NAME || key == PARENT || key == OBJECT || key == CONFIG
  }

  /** Moreover the slots of a container are different and not reserved, so that no reference is
      overwritten. */
  ghost predicate WellEmbedded(d: Dict) {
    && (forall y :: y in d.kids && Liftable(d.kids[y]) ==> WellEmbedded(d.kids[y]) && !(IsObject(d.kids[y]) && IsConfig(d.kids[y])))
    && (forall y :: y in d.kids && IsConfig(d.kids[y]) ==> |ConfigList(d.kids[y])| >= 3 && !IsReserved(Slot(d.kids[y])))
    && (forall y, z :: y in d.kids && z in d.kids && IsConfig(d.kids[y]) && IsConfig(d.kids[z]) && y != z
                       ==> Slot(d.kids[y]) != Slot(d.kids[z]))
  }

  /** What the source gets through: a nested dict is an object or an embedded configuration, not
      both, and a configuration spells out slot, `object` and class. */
  ghost predicate Accepted(d: Dict) {
    forall y :: y in d.kids && Liftable(d.kids[y]) ==>
      && Accepted(d.kids[y]) && !(IsObject(d.kids[y]) && IsConfig(d.kids[y]))
      && (IsConfig(d.kids[y]) ==> |ConfigList(d.kids[y])| >= 3)
  }

  predicate NothingToLift(d: Dict) {
    forall y :: y in d.kids ==> "object" !in d.kids[y].attrs && "omfEmbeddedConfigObject" !in d.kids[y].attrs
  }

  /** On the top level, whatever contains something has a name. */
  ghost predicate AcceptedTree(tree: map<nat, Dict>) {
    forall x :: x in tree ==> Accepted(tree[x]) && (NothingToLift(tree[x]) || NAME in tree[x].attrs)
  }

  ghost predicate WellFormed(tree: map<nat, Dict>) {
    forall x :: x in tree ==> WellEmbedded(tree[x]) && (NothingToLift(tree[x]) || NAME in tree[x].attrs)
  }

  // ------------------------------------------------------------------ sums over dicts

  ghost function Sum<T>(m: map<nat, multiset<T>>): multiset<T>
    decreases |m|
  {
    if m == map[] then multiset{}
    else
      var k :| k in m;
      assert |m - {k}| < |m| by { MapMinus(m, k); }
      m[k] + Sum(m - {k})
  }

  lemma {:induction false} MapMinus<V>(m: map<nat, V>, k: nat)
    requires k in m
    ensures |m - {k}| == |m| - 1
  {
    assert (m - {k}).Keys == m.Keys - {k};
    assert |(m - {k}).Keys| == |m - {k}|;
    assert |m.Keys| == |m|;
  }

  /** The terms of a sum can be taken in any order. */
  lemma {:induction false} SumTake<T>(m: map<nat, multiset<T>>, k: nat)
    requires k in m
    ensures Sum(m) == m[k] + Sum(m - {k})
    decreases |m|
  {
    var j :| j in m && Sum(m) == m[j] + Sum(m - {j});
    if j != k {
      MapMinus(m, j);
      MapMinus(m, k);
      SumTake(m - {j}, k);
      SumTake(m - {k}, j);
      assert m - {j} - {k} == m - {k} - {j};
    }
  }

  lemma {:induction false} SumMembers<T>(m: map<nat, multiset<T>>, e: T)
    requires e in Sum(m)
    ensures exists k :: k in m && e in m[k]
    decreases |m|
  {
    var k :| k in m && Sum(m) == m[k] + Sum(m - {k});
    if e !in m[k] {
      MapMinus(m, k);
      SumMembers(m - {k}, e);
      var j :| j in m - {k} && e in (m - {k})[j];
      assert e in m[j];
    }
  }

  // ------------------------------------------------------------------ where everything ends up

  /** The container's references to its configurations. */
  ghost function References(attrs: map<string, string>, d: Dict): map<string, string>
    requires WellEmbedded(d)
  {
    map y | y in d.kids && IsConfig(d.kids[y]) :: Slot(d.kids[y]) := LiftedName(d.kids[y], NameOf(attrs), y)
  }

  /** What stays of a dict with these attributes: references in place of configurations, and
      whatever is neither object nor configuration. */
  ghost function Residue(attrs: map<string, string>, d: Dict): Dict
    requires WellEmbedded(d)
  {
    Dict(attrs + References(attrs, d), map y | y in d.kids && !Liftable(d.kids[y]) :: d.kids[y])
  }

  /** The top-level dicts that a dict in the end becomes, each with the guid it had at first
      (or with 0, where guids are to be ignored). */
  ghost function Entries(x: nat, attrs: map<string, string>, d: Dict, tagged: bool): multiset<(nat, Dict)>
    requires WellEmbedded(d)
    decreases d, 1
  {
    multiset{(if tagged then x else 0, Residue(attrs, d))} + Sum(KidTerms(NameOf(attrs), d, tagged))
  }

  ghost function KidTerms(container: string, d: Dict, tagged: bool): map<nat, multiset<(nat, Dict)>>
    requires WellEmbedded(d)
    decreases d, 0
  {
    map y | y in d.kids && Liftable(d.kids[y]) :: Entries(y, LiftedAttrs(d.kids[y], container, y), d.kids[y], tagged)
  }

  ghost function TreeTerms(tree: map<nat, Dict>, tagged: bool): map<nat, multiset<(nat, Dict)>>
    requires WellFormed(tree)
  {
    map x | x in tree :: Entries(x, tree[x].attrs, tree[x], tagged)
  }

  ghost function Total(tree: map<nat, Dict>, tagged: bool): multiset<(nat, Dict)>
    requires WellFormed(tree)
  {
    Sum(TreeTerms(tree, tagged))
  }

  /** The top level as it is. */
  ghost function Bag(tree: map<nat, Dict>, tagged: bool): multiset<(nat, Dict)> {
    Sum(BagTerms(tree, tagged))
  }

  ghost function BagTerms(tree: map<nat, Dict>, tagged: bool): map<nat, multiset<(nat, Dict)>> {
    map x | x in tree :: multiset{(if tagged then x else 0, tree[x])}
  }

  // ------------------------------------------------------------------ one lift

  /** The tree after kid y of x has been put under z. */
  function Lift(tree: map<nat, Dict>, x: nat, y: nat, z: nat): map<nat, Dict>
    requires x in tree && y in tree[x].kids
  {
    tree[x := Emptied(tree[x], y)][z := LiftedDict(tree[x].kids[y], NameOf(tree[x].attrs), y)]
  }

  lemma {:induction false} EmptiedWell(c: Dict, y: nat)
    requires WellEmbedded(c) && y in c.kids && Liftable(c.kids[y])
    ensures WellEmbedded(Emptied(c, y)) && NameOf(Emptied(c, y).attrs) == NameOf(c.attrs)
    ensures NAME in c.attrs ==> NAME in Emptied(c, y).attrs
  {
  }

  lemma {:induction false} LiftedWell(kid: Dict, container: string, y: nat)
    requires WellEmbedded(kid) && Liftable(kid) && !(IsObject(kid) && IsConfig(kid))
    ensures WellEmbedded(LiftedDict(kid, container, y)) && NAME in LiftedDict(kid, container, y).attrs
  {
  }

  lemma {:induction false} SlotsDiffer(c: Dict, y: nat, z: nat)
    requires WellEmbedded(c) && y in c.kids && z in c.kids && IsConfig(c.kids[y]) && IsConfig(c.kids[z]) && y != z
    ensures Slot(c.kids[y]) != Slot(c.kids[z])
  {
  }

  lemma {:induction false} KidWell(c: Dict, y: nat)
    requires WellEmbedded(c) && y in c.kids && Liftable(c.kids[y])
    ensures WellEmbedded(c.kids[y]) && !(IsObject(c.kids[y]) && IsConfig(c.kids[y]))
  {
  }

  /** The reference of a configuration, under its slot. */
  lemma {:induction false} ReferenceAt(attrs: map<string, string>, d: Dict, y: nat)
    requires WellEmbedded(d) && y in d.kids && IsConfig(d.kids[y])
    ensures Slot(d.kids[y]) in References(attrs, d)
    ensures References(attrs, d)[Slot(d.kids[y])] == LiftedName(d.kids[y], NameOf(attrs), y)
  {
    hide Slot, LiftedName, NameOf;
  }

  lemma {:induction false} ReferenceOrigin(attrs: map<string, string>, d: Dict, s: string) returns (y: nat)
    requires WellEmbedded(d) && s in References(attrs, d)
    ensures y in d.kids && IsConfig(d.kids[y]) && Slot(d.kids[y]) == s
  {
    hide Slot, LiftedName, NameOf, WellEmbedded;
    y :| y in d.kids && IsConfig(d.kids[y]) && Slot(d.kids[y]) == s;
  }

  /** One kid fewer. */
  ghost predicate OneFewer(c: Dict, c': Dict, y: nat) {
    y in c.kids && c'.kids == c.kids - {y} && NameOf(c'.attrs) == NameOf(c.attrs)
  }

  lemma {:induction false} ReferencesLess(c: Dict, c': Dict, y: nat)
    requires WellEmbedded(c) && WellEmbedded(c') && OneFewer(c, c', y)
    ensures var r, r' := References(c.attrs, c), References(c'.attrs, c');
            r == if IsConfig(c.kids[y]) then r'[Slot(c.kids[y]) := LiftedName(c.kids[y], NameOf(c.attrs), y)] else r'
  {
    hide Slot, LiftedName, NameOf, WellEmbedded, References, IsConfig;
    var r, r' := References(c.attrs, c), References(c'.attrs, c');
    if IsConfig(c.kids[y]) { ReferenceAt(c.attrs, c, y); }
    forall s | s in r && !(IsConfig(c.kids[y]) && s == Slot(c.kids[y]))
      ensures s in r' && r'[s] == r[s]
    {
      var k := ReferenceOrigin(c.attrs, c, s);
      ReferenceAt(c.attrs, c, k);
      ReferenceAt(c'.attrs, c', k);
    }
    forall s | s in r'
      ensures s in r && r[s] == r'[s] && !(IsConfig(c.kids[y]) && s == Slot(c.kids[y]))
    {
      var k := ReferenceOrigin(c'.attrs, c', s);
      ReferenceAt(c.attrs, c, k);
      ReferenceAt(c'.attrs, c', k);
      if IsConfig(c.kids[y]) { SlotsDiffer(c, y, k); }
    }
  }

  lemma {:induction false} ReferencesKept(c: Dict, y: nat)
    requires WellEmbedded(c) && y in c.kids && Liftable(c.kids[y]) && WellEmbedded(Emptied(c, y))
    ensures var c' := Emptied(c, y); c'.attrs + References(c'.attrs, c') == c.attrs + References(c.attrs, c)
  {
    hide Slot, LiftedName, NameOf, WellEmbedded, References, ObjectOf;
    EmptiedWell(c, y);
    KidWell(c, y);
    ReferencesLess(c, Emptied(c, y), y);
    if IsConfig(c.kids[y]) {
      ReferenceNotThere(c, Emptied(c, y), y);
    }
  }

  lemma {:induction false} ReferenceNotThere(c: Dict, c': Dict, y: nat)
    requires WellEmbedded(c) && WellEmbedded(c') && OneFewer(c, c', y) && IsConfig(c.kids[y])
    ensures Slot(c.kids[y]) !in References(c'.attrs, c')
  {
    hide Slot, LiftedName, NameOf, WellEmbedded, References, IsConfig;
    if Slot(c.kids[y]) in References(c'.attrs, c') {
      var k := ReferenceOrigin(c'.attrs, c', Slot(c.kids[y]));
      SlotsDiffer(c, y, k);
    }
  }

  /** Lifting a kid does not change what stays of its container. */
  lemma {:induction false} ResidueKept(c: Dict, y: nat)
    requires WellEmbedded(c) && y in c.kids && Liftable(c.kids[y])
    ensures WellEmbedded(Emptied(c, y))
    ensures Residue(Emptied(c, y).attrs, Emptied(c, y)) == Residue(c.attrs, c)
  {
    hide WellEmbedded, References, Slot, LiftedName, NameOf;
    EmptiedWell(c, y);
    ReferencesKept(c, y);
    assert Residue(Emptied(c, y).attrs, Emptied(c, y)).kids == Residue(c.attrs, c).kids;
  }

  /** What becomes of a dict depends on its attributes and kids only. */
  lemma {:induction false} EntriesOfKids(x: nat, x': nat, attrs: map<string, string>, d: Dict, d': Dict, tagged: bool)
    requires WellEmbedded(d) && WellEmbedded(d') && d.kids == d'.kids && (tagged ==> x == x')
    ensures Entries(x, attrs, d, tagged) == Entries(x', attrs, d', tagged)
  {
    hide WellEmbedded, LiftedAttrs, LiftedName, Slot, NameOf, Liftable;
    assert KidTerms(NameOf(attrs), d, tagged) == KidTerms(NameOf(attrs), d', tagged);
    assert References(attrs, d) == References(attrs, d');
    assert Residue(attrs, d) == Residue(attrs, d');
  }

  lemma {:induction false} KidTermsTake(container: string, c: Dict, y: nat, tagged: bool)
    requires WellEmbedded(c) && y in c.kids && Liftable(c.kids[y]) && WellEmbedded(Emptied(c, y))
    ensures Sum(KidTerms(container, c, tagged))
         == Entries(y, LiftedAttrs(c.kids[y], container, y), c.kids[y], tagged) + Sum(KidTerms(container, Emptied(c, y), tagged))
  {
    hide WellEmbedded, Entries, LiftedAttrs, Liftable;
    var m := KidTerms(container, c, tagged);
    SumTake(m, y);
    assert m - {y} == KidTerms(container, Emptied(c, y), tagged);
  }

  /** A container and its kid, before and after. */
  lemma {:induction false} EntriesSplit(x: nat, c: Dict, y: nat, z: nat, tagged: bool)
    requires WellEmbedded(c) && y in c.kids && Liftable(c.kids[y]) && (tagged ==> z == y)
    ensures WellEmbedded(Emptied(c, y)) && WellEmbedded(LiftedDict(c.kids[y], NameOf(c.attrs), y))
    ensures var kid := LiftedDict(c.kids[y], NameOf(c.attrs), y);
            Entries(x, c.attrs, c, tagged) == Entries(x, Emptied(c, y).attrs, Emptied(c, y), tagged) + Entries(z, kid.attrs, kid, tagged)
  {
    hide WellEmbedded, KidTerms, Residue, LiftedAttrs, Liftable, NameOf, LiftedName, Sum;
    EmptiedWell(c, y);
    ResidueKept(c, y);
    KidWell(c, y);
    LiftedWell(c.kids[y], NameOf(c.attrs), y);
    var kid := LiftedDict(c.kids[y], NameOf(c.attrs), y);
    EntriesOfKids(z, y, kid.attrs, kid, c.kids[y], tagged);
    KidTermsTake(NameOf(c.attrs), c, y, tagged);
  }

  lemma {:induction false} LiftWellFormed(tree: map<nat, Dict>, x: nat, y: nat, z: nat)
    requires WellFormed(tree) && x in tree && y in tree[x].kids && Liftable(tree[x].kids[y]) && z !in tree
    ensures WellFormed(Lift(tree, x, y, z))
  {
    hide LiftedAttrs, Slot;
    EmptiedWell(tree[x], y);
    LiftedWell(tree[x].kids[y], NameOf(tree[x].attrs), y);
  }

  /** Lifting loses nothing and adds nothing, even under another key than the guid. */
  lemma {:induction false} LiftKeepsTotal(tree: map<nat, Dict>, x: nat, y: nat, z: nat, tagged: bool)
    requires WellFormed(tree) && x in tree && y in tree[x].kids && Liftable(tree[x].kids[y]) && z !in tree
    requires tagged ==> z == y
    ensures WellFormed(Lift(tree, x, y, z)) && Total(Lift(tree, x, y, z), tagged) == Total(tree, tagged)
  {
    hide WellEmbedded, Entries, Lift, Emptied, LiftedDict, NameOf, TreeTerms, Sum;
    LiftWellFormed(tree, x, y, z);
    assert WellEmbedded(tree[x]);
    EntriesSplit(x, tree[x], y, z, tagged);
    TermsAfterLift(tree, x, y, z, tagged);
    var m, m' := TreeTerms(tree, tagged), TreeTerms(Lift(tree, x, y, z), tagged);
    SumTake(m, x);
    SumTake(m', x);
    SumTake(m' - {x}, z);
  }

  lemma {:induction false} TermsAfterLift(tree: map<nat, Dict>, x: nat, y: nat, z: nat, tagged: bool)
    requires WellFormed(tree) && x in tree && y in tree[x].kids && z !in tree && WellFormed(Lift(tree, x, y, z))
    requires WellEmbedded(Emptied(tree[x], y)) && WellEmbedded(LiftedDict(tree[x].kids[y], NameOf(tree[x].attrs), y))
    ensures x in TreeTerms(tree, tagged) && TreeTerms(tree, tagged)[x] == Entries(x, tree[x].attrs, tree[x], tagged)
    ensures var m' := TreeTerms(Lift(tree, x, y, z), tagged);
            && x in m' && z in m' && z != x && m' - {x} - {z} == TreeTerms(tree, tagged) - {x}
            && m'[x] == Entries(x, Emptied(tree[x], y).attrs, Emptied(tree[x], y), tagged)
            && (var kid := LiftedDict(tree[x].kids[y], NameOf(tree[x].attrs), y); m'[z] == Entries(z, kid.attrs, kid, tagged))
  {
    hide WellEmbedded, Entries, Emptied, LiftedDict, NameOf;
  }

  /** Once nothing is left to lift, the top level is what everything was to become. */
  lemma {:induction false} FlatIsTotal(tree: map<nat, Dict>, tagged: bool)
    requires WellFormed(tree) && forall x :: x in tree ==> NothingToLift(tree[x])
    ensures Total(tree, tagged) == Bag(tree, tagged)
  {
    hide Sum, TreeTerms, BagTerms, NothingToLift, WellFormed;
    var m, n := TreeTerms(tree, tagged), BagTerms(tree, tagged);
    forall x | x in tree
      ensures x in m && x in n && m[x] == n[x]
    {
      FlatTerm(tree, x, tagged);
    }
    assert m.Keys == tree.Keys == n.Keys by { TermKeys(tree, tagged); }
    assert m == n;
  }

  lemma {:induction false} TermKeys(tree: map<nat, Dict>, tagged: bool)
    requires WellFormed(tree)
    ensures TreeTerms(tree, tagged).Keys == tree.Keys == BagTerms(tree, tagged).Keys
  {
    hide WellEmbedded, Entries;
  }

  lemma {:induction false} FlatTerm(tree: map<nat, Dict>, x: nat, tagged: bool)
    requires WellFormed(tree) && x in tree && NothingToLift(tree[x])
    ensures x in TreeTerms(tree, tagged) && x in BagTerms(tree, tagged)
    ensures TreeTerms(tree, tagged)[x] == BagTerms(tree, tagged)[x]
  {
    hide WellEmbedded, Entries, NothingToLift;
    InertEntries(x, tree[x], tagged);
  }

  lemma {:induction false} EntriesAre(x: nat, attrs: map<string, string>, d: Dict, tagged: bool)
    requires WellEmbedded(d)
    ensures Entries(x, attrs, d, tagged)
         == multiset{(if tagged then x else 0, Residue(attrs, d))} + Sum(KidTerms(NameOf(attrs), d, tagged))
  {
    hide WellEmbedded, Residue, KidTerms, Sum, NameOf;
  }

  lemma {:induction false} InertResidue(d: Dict)
    requires WellEmbedded(d) && NothingToLift(d) && References(d.attrs, d) == map[]
    ensures Residue(d.attrs, d) == d
  {
    hide WellEmbedded, References;
    assert Residue(d.attrs, d).kids == d.kids;
    assert d.attrs + map[] == d.attrs;
  }

  lemma {:induction false} InertEntries(x: nat, d: Dict, tagged: bool)
    requires WellEmbedded(d) && NothingToLift(d)
    ensures Entries(x, d.attrs, d, tagged) == multiset{(if tagged then x else 0, d)}
  {
    hide LiftedAttrs, LiftedName, Slot, NameOf, Entries, Residue, References, KidTerms, NothingToLift, WellEmbedded;
    NoKidTerms(NameOf(d.attrs), d, tagged);
    NoReferences(d.attrs, d);
    InertResidue(d);
    EntriesAre(x, d.attrs, d, tagged);
  }

  lemma {:induction false} NoKidTerms(container: string, d: Dict, tagged: bool)
    requires WellEmbedded(d) && NothingToLift(d)
    ensures KidTerms(container, d, tagged) == map[]
  {
    hide Entries, LiftedAttrs;
  }

  lemma {:induction false} NoReferences(attrs: map<string, string>, d: Dict)
    requires WellEmbedded(d) && NothingToLift(d)
    ensures References(attrs, d) == map[]
  {
    hide Slot, LiftedName, NameOf, WellEmbedded;
  }

  // ------------------------------------------------------------------ how many there are to come

  /** One tag for each top-level dict that d is to become, whatever its slots: its guid, or 0. */
  ghost function Tags(x: nat, d: Dict, tagged: bool): multiset<nat>
    decreases d, 1
  {
    multiset{if tagged then x else 0} + Sum(KidTags(d, tagged))
  }

  ghost function KidTags(d: Dict, tagged: bool): map<nat, multiset<nat>>
    decreases d, 0
  {
    map y | y in d.kids && Liftable(d.kids[y]) :: Tags(y, d.kids[y], tagged)
  }

  ghost function TreeTags(tree: map<nat, Dict>, tagged: bool): map<nat, multiset<nat>> {
    map x | x in tree :: Tags(x, tree[x], tagged)
  }

  lemma {:induction false} TagsAre(x: nat, d: Dict, tagged: bool)
    ensures Tags(x, d, tagged) == multiset{if tagged then x else 0} + Sum(KidTags(d, tagged))
  {
    hide KidTags, Sum;
  }

  lemma {:induction false} TagsOfKids(x: nat, d: Dict, x': nat, d': Dict, tagged: bool)
    requires d.kids == d'.kids && (tagged ==> x == x')
    ensures Tags(x, d, tagged) == Tags(x', d', tagged)
  {
    hide Tags, Sum, Liftable;
    TagsAre(x, d, tagged);
    TagsAre(x', d', tagged);
    assert KidTags(d, tagged) == KidTags(d', tagged);
  }

  lemma {:induction false} TagsSplit(x: nat, c: Dict, y: nat, z: nat, tagged: bool)
    requires y in c.kids && Liftable(c.kids[y]) && (tagged ==> z == y)
    ensures Tags(x, c, tagged) == Tags(x, Emptied(c, y), tagged) + Tags(z, LiftedDict(c.kids[y], NameOf(c.attrs), y), tagged)
  {
    hide Tags, Sum, Liftable, Emptied, LiftedDict, NameOf;
    var c', kid := Emptied(c, y), LiftedDict(c.kids[y], NameOf(c.attrs), y);
    SameKids(c, y);
    TagsAre(x, c, tagged);
    TagsAre(x, c', tagged);
    TagsOfKids(z, kid, y, c.kids[y], tagged);
    SumTake(KidTags(c, tagged), y);
    assert KidTags(c, tagged) - {y} == KidTags(c', tagged);
  }

  /** A lift changes nothing about how many there are to come. */
  lemma {:induction false} LiftKeepsTags(tree: map<nat, Dict>, x: nat, y: nat, z: nat, tagged: bool)
    requires x in tree && y in tree[x].kids && Liftable(tree[x].kids[y]) && z !in tree && (tagged ==> z == y)
    ensures Sum(TreeTags(Lift(tree, x, y, z), tagged)) == Sum(TreeTags(tree, tagged))
  {
    hide Tags, Sum, Liftable, Emptied, LiftedDict, NameOf;
    TagsSplit(x, tree[x], y, z, tagged);
    var m, m' := TreeTags(tree, tagged), TreeTags(Lift(tree, x, y, z), tagged);
    SumTake(m, x);
    SumTake(m', x);
    SumTake(m' - {x}, z);
    assert m' - {x} - {z} == m - {x};
  }

  lemma {:induction false} InertTags(x: nat, d: Dict)
    requires NothingToLift(d)
    ensures Tags(x, d, false) == multiset{0}
  {
    hide Tags;
    TagsAre(x, d, false);
    assert KidTags(d, false) == map[];
  }

  lemma {:induction false} FlatTags(tree: map<nat, Dict>)
    requires forall x :: x in tree ==> NothingToLift(tree[x])
    ensures |tree| == |Sum(TreeTags(tree, false))|
  {
    hide Tags, Sum, NothingToLift;
    var m := TreeTags(tree, false);
    forall x | x in tree
      ensures m[x] == multiset{0}
    {
      InertTags(x, tree[x]);
    }
    SumOfSingles(m);
    assert m.Keys == tree.Keys && |m| == |m.Keys| && |tree| == |tree.Keys|;
  }

  lemma {:induction false} TagsFit(tree: map<nat, Dict>)
    ensures |tree| <= |Sum(TreeTags(tree, false))|
  {
    hide Tags, Sum;
    var m := TreeTags(tree, false);
    forall x | x in tree
      ensures |m[x]| >= 1
    {
      TagsAre(x, tree[x], false);
    }
    SumAtLeast(m);
    assert m.Keys == tree.Keys && |m| == |m.Keys| && |tree| == |tree.Keys|;
  }

  lemma {:induction false} EmptiedAccepted(c: Dict, y: nat)
    requires Accepted(c) && y in c.kids && Liftable(c.kids[y])
    ensures Accepted(Emptied(c, y)) && (NAME in c.attrs ==> NAME in Emptied(c, y).attrs)
    ensures Accepted(LiftedDict(c.kids[y], NameOf(c.attrs), y)) && NAME in LiftedDict(c.kids[y], NameOf(c.attrs), y).attrs
  {
    hide Slot, ConfigList, LiftedName, NameOf, ObjectOf;
  }

  lemma {:induction false} LiftAccepted(tree: map<nat, Dict>, x: nat, y: nat, z: nat)
    requires AcceptedTree(tree) && x in tree && y in tree[x].kids && Liftable(tree[x].kids[y]) && z !in tree
    ensures AcceptedTree(Lift(tree, x, y, z))
  {
    hide Accepted, Emptied, LiftedDict, NameOf, Liftable;
    EmptiedAccepted(tree[x], y);
    SomethingToLift(tree[x], y);
  }

  lemma {:induction false} SomethingToLift(d: Dict, y: nat)
    requires y in d.kids && Liftable(d.kids[y])
    ensures !NothingToLift(d)
  {
  }

  // ------------------------------------------------------------------ guids

  function Top(tree: map<nat, Dict>): Dict {
    Dict(map[], tree)
  }

  function Without(d: Dict, y: nat): Dict {
    Dict(d.attrs, d.kids - {y})
  }

  lemma {:induction false} GuidsOfKids(d: Dict, d': Dict)
    requires d.kids == d'.kids
    ensures Guids(d) == Guids(d') && (UniqueGuids(d) ==> UniqueGuids(d'))
  {
  }

  lemma {:induction false} WithoutGuids(d: Dict, y: nat)
    requires UniqueGuids(d) && y in d.kids
    ensures UniqueGuids(Without(d, y)) && UniqueGuids(d.kids[y])
    ensures Guids(d) == Guids(Without(d, y)) + {y} + Guids(d.kids[y])
    ensures y !in Guids(Without(d, y)) && y !in Guids(d.kids[y]) && Guids(Without(d, y)) !! Guids(d.kids[y])
  {
    hide UniqueGuids, Guids;
    var w := Without(d, y);
    UniqueParts(d, y);
    UniquePair(d, y, y);
    forall g | g in Guids(d)
      ensures g in Guids(w) + {y} + Guids(d.kids[y])
    {
      var k := GuidOrigin(d, g);
      if k != y {
        KidGuids(w, k);
        assert w.kids[k] == d.kids[k];
      }
    }
    KidGuids(d, y);
    forall g | g in Guids(w)
      ensures g in Guids(d) && g != y && g !in Guids(d.kids[y])
    {
      var k := GuidOrigin(w, g);
      assert w.kids[k] == d.kids[k];
      KidGuids(d, k);
      UniquePair(d, y, k);
      UniquePair(d, k, y);
    }
  }

  lemma {:induction false} UniqueParts(d: Dict, y: nat)
    requires UniqueGuids(d) && y in d.kids
    ensures UniqueGuids(Without(d, y)) && UniqueGuids(d.kids[y])
  {
    hide Guids;
  }

  lemma {:induction false} UniquePair(d: Dict, g: nat, h: nat)
    requires UniqueGuids(d) && g in d.kids && h in d.kids
    ensures g !in Guids(d.kids[h]) && (g != h ==> Guids(d.kids[g]) !! Guids(d.kids[h]))
  {
    hide Guids;
  }

  /** A guid that is used once is free on the top level, and lifting keeps it so. */
  lemma {:induction false} LiftGuids(tree: map<nat, Dict>, x: nat, y: nat)
    requires UniqueGuids(Top(tree)) && x in tree && y in tree[x].kids
    ensures y !in tree
    ensures UniqueGuids(Top(Lift(tree, x, y, y))) && Guids(Top(Lift(tree, x, y, y))) == Guids(Top(tree))
  {
    hide UniqueGuids, Guids, LiftedDict, Emptied;
    var t := Top(tree);
    KidGuids(t, x);
    KidGuids(tree[x], y);
    if y in tree { UniquePair(t, y, x); }
    var c', kid' := Emptied(tree[x], y), LiftedDict(tree[x].kids[y], NameOf(tree[x].attrs), y);
    WithoutGuids(t, x);
    WithoutGuids(tree[x], y);
    SameKids(tree[x], y);
    MovedGuids(t, x, y, c', kid');
    assert PutKid(PutKid(Without(t, x), x, c'), y, kid') == Top(Lift(tree, x, y, y));
  }

  lemma {:induction false} SameKids(c: Dict, y: nat)
    requires y in c.kids
    ensures Emptied(c, y).kids == Without(c, y).kids && LiftedDict(c.kids[y], NameOf(c.attrs), y).kids == c.kids[y].kids
  {
    hide LiftedAttrs, LiftedName, Slot, NameOf, IsObject;
  }

  /** What is taken out of x goes back in two parts. */
  lemma {:induction false} MovedGuids(t: Dict, x: nat, y: nat, c': Dict, kid': Dict)
    requires UniqueGuids(t) && x in t.kids && y in t.kids[x].kids && y !in t.kids
    requires c'.kids == Without(t.kids[x], y).kids && kid'.kids == t.kids[x].kids[y].kids
    ensures var r := PutKid(PutKid(Without(t, x), x, c'), y, kid'); UniqueGuids(r) && Guids(r) == Guids(t)
  {
    hide UniqueGuids, Guids;
    var w, c := Without(t, x), t.kids[x];
    WithoutGuids(t, x);
    WithoutGuids(c, y);
    GuidsOfKids(c.kids[y], kid');
    GuidsOfKids(Without(c, y), c');
    WithKid(w, x, c');
    WithKid(PutKid(w, x, c'), y, kid');
  }

  /** A dict whose guids are all new can be added. */
  lemma {:induction false} WithKid(d: Dict, g: nat, kid: Dict)
    requires UniqueGuids(d) && UniqueGuids(kid) && g !in Guids(d) && g !in Guids(kid) && Guids(d) !! Guids(kid)
    ensures UniqueGuids(PutKid(d, g, kid)) && Guids(PutKid(d, g, kid)) == Guids(d) + {g} + Guids(kid)
  {
    hide Guids, UniqueGuids;
    if g in d.kids { KidGuids(d, g); }
    PutKidSet(d, g, kid);
    var e := PutKid(d, g, kid);
    forall k, j | k in e.kids && j in e.kids
      ensures UniqueGuids(e.kids[k])
      ensures k !in Guids(e.kids[j]) && (k != j ==> Guids(e.kids[k]) !! Guids(e.kids[j]))
    {
      if k in d.kids && k != g { KidGuids(d, k); KidUnique(d, k); }
      if j in d.kids && j != g { KidGuids(d, j); }
      if k in d.kids && j in d.kids && k != g && j != g { UniquePair(d, k, j); }
    }
    PairsMakeUnique(e);
  }

  lemma {:induction false} KidUnique(d: Dict, k: nat)
    requires UniqueGuids(d) && k in d.kids
    ensures UniqueGuids(d.kids[k])
  {
  }

  lemma {:induction false} PairsMakeUnique(d: Dict)
    requires forall k :: k in d.kids ==> UniqueGuids(d.kids[k])
    requires forall k, j :: k in d.kids && j in d.kids ==> k !in Guids(d.kids[j]) && (k != j ==> Guids(d.kids[k]) !! Guids(d.kids[j]))
    ensures UniqueGuids(d)
  {
    hide Guids;
  }

  // ------------------------------------------------------------------ what a container and its kid know of each other

  lemma {:induction false} LiftedObject(kid: Dict, container: string, y: nat)
    requires IsObject(kid)
    ensures var a := LiftedAttrs(kid, container, y);
            PARENT in a && a[PARENT] == container && OBJECT in a && a[OBJECT] == kid.attrs[OBJECT]
  {
    hide LiftedName;
  }

  lemma {:induction false} LiftedConfig(kid: Dict, container: string, y: nat)
    requires !IsObject(kid)
    ensures var a := LiftedAttrs(kid, container, y);
            NAME in a && a[NAME] == LiftedName(kid, container, y) && OBJECT in a && a[OBJECT] == ObjectOf(kid) && CONFIG !in a
  {
    hide LiftedName, ObjectOf;
  }

  /** An object on the top level names its former container, which keeps its name. */
  lemma {:induction false} ObjectNamesContainer(attrs: map<string, string>, d: Dict, y: nat)
    requires WellEmbedded(d) && y in d.kids && IsObject(d.kids[y]) && NAME in attrs
    ensures var e := Residue(LiftedAttrs(d.kids[y], NameOf(attrs), y), d.kids[y]);
            && NAME in Residue(attrs, d).attrs && Residue(attrs, d).attrs[NAME] == attrs[NAME]
            && PARENT in e.attrs && e.attrs[PARENT] == attrs[NAME]
            && OBJECT in e.attrs && e.attrs[OBJECT] == d.kids[y].attrs[OBJECT]
  {
    hide Residue, References, WellEmbedded, LiftedAttrs;
    NotReferred(attrs, d, NAME);
    KidWell(d, y);
    var kid := d.kids[y];
    var lifted := LiftedAttrs(kid, NameOf(attrs), y);
    LiftedObject(kid, NameOf(attrs), y);
    NotReferred(lifted, kid, PARENT);
    NotReferred(lifted, kid, OBJECT);
  }

  /** A configuration on the top level is what its former container's slot names. */
  lemma {:induction false} ConfigIsReferred(attrs: map<string, string>, d: Dict, y: nat)
    requires WellEmbedded(d) && y in d.kids && IsConfig(d.kids[y])
    ensures var e := Residue(LiftedAttrs(d.kids[y], NameOf(attrs), y), d.kids[y]);
            && Slot(d.kids[y]) in Residue(attrs, d).attrs && NAME in e.attrs
            && Residue(attrs, d).attrs[Slot(d.kids[y])] == e.attrs[NAME]
            && OBJECT in e.attrs && e.attrs[OBJECT] == ObjectOf(d.kids[y]) && CONFIG !in e.attrs
  {
    hide WellEmbedded, References, LiftedAttrs, NameOf, LiftedName, ObjectOf, Slot;
    var kid := d.kids[y];
    KidWell(d, y);
    ReferenceAt(attrs, d, y);
    var lifted := LiftedAttrs(kid, NameOf(attrs), y);
    LiftedConfig(kid, NameOf(attrs), y);
    NotReferred(lifted, kid, NAME);
    NotReferred(lifted, kid, OBJECT);
    NotReferred(lifted, kid, CONFIG);
  }

  /** References never hide one of the keys that de-embedding itself uses. */
  lemma {:induction false} NotReferred(attrs: map<string, string>, d: Dict, key: string)
    requires WellEmbedded(d) && IsReserved(key)
    ensures key !in References(attrs, d)
    ensures key in Residue(attrs, d).attrs <==> key in attrs
    ensures key in attrs ==> Residue(attrs, d).attrs[key] == attrs[key]
  {
    hide References, Slot, LiftedAttrs;
    if key in References(attrs, d) {
      var k := ReferenceOrigin(attrs, d, key);
    }
  }

  /** What becomes of a kid is part of what becomes of its container. */
  lemma {:induction false} KidsAreEntries(x: nat, attrs: map<string, string>, d: Dict, y: nat, tagged: bool)
    requires WellEmbedded(d) && y in d.kids && Liftable(d.kids[y])
    ensures multiset{(if tagged then x else 0, Residue(attrs, d))}
            + Entries(y, LiftedAttrs(d.kids[y], NameOf(attrs), y), d.kids[y], tagged) <= Entries(x, attrs, d, tagged)
  {
    hide Residue, LiftedAttrs, NameOf, WellEmbedded, Entries, Sum;
    EntriesAre(x, attrs, d, tagged);
    SumTake(KidTerms(NameOf(attrs), d, tagged), y);
  }

  // ------------------------------------------------------------------ all dicts

  /** Every dict below d is an object or a configuration. */
  ghost predicate AllLiftable(d: Dict) {
    forall y :: y in d.kids ==> Liftable(d.kids[y]) && AllLiftable(d.kids[y])
  }

  /** The guids of d and of everything below it. */
  ghost function AllDicts(x: nat, d: Dict): multiset<nat>
    decreases d, 1
  {
    multiset{x} + Sum(AllBelow(d))
  }

  ghost function AllBelow(d: Dict): map<nat, multiset<nat>>
    decreases d, 0
  {
    map y | y in d.kids :: AllDicts(y, d.kids[y])
  }

  ghost function AllOf(tree: map<nat, Dict>): multiset<nat> {
    Sum(map x | x in tree :: AllDicts(x, tree[x]))
  }

  lemma {:induction false} SumSizes<S, T>(m: map<nat, multiset<S>>, n: map<nat, multiset<T>>)
    requires m.Keys == n.Keys && forall k :: k in m ==> |m[k]| == |n[k]|
    ensures |Sum(m)| == |Sum(n)|
    decreases |m|
  {
    if m == map[] {
      assert n.Keys == {};
      assert n == map[];
    } else {
      var k :| k in m;
      SumTake(m, k);
      SumTake(n, k);
      MapMinus(m, k);
      SumSizes(m - {k}, n - {k});
    }
  }

  lemma {:induction false} SumAtLeast<T>(m: map<nat, multiset<T>>)
    requires forall k :: k in m ==> |m[k]| >= 1
    ensures |Sum(m)| >= |m|
    decreases |m|
  {
    if m != map[] {
      var k :| k in m;
      SumTake(m, k);
      MapMinus(m, k);
      SumAtLeast(m - {k});
    } else {
      assert |m| == 0;
    }
  }

  lemma {:induction false} EntriesCount(x: nat, attrs: map<string, string>, d: Dict, tagged: bool)
    requires WellEmbedded(d) && AllLiftable(d)
    ensures |Entries(x, attrs, d, tagged)| == |AllDicts(x, d)|
    ensures forall e: (nat, Dict) :: e in Entries(x, attrs, d, tagged) ==> e.1.kids == map[]
    decreases d
  {
    hide Residue, LiftedAttrs, NameOf, Sum, Entries, WellEmbedded, Slot;
    EntriesAre(x, attrs, d, tagged);
    var m, n := KidTerms(NameOf(attrs), d, tagged), AllBelow(d);
    forall y | y in d.kids
      ensures y in m && |m[y]| == |n[y]| && forall e: (nat, Dict) :: e in m[y] ==> e.1.kids == map[]
    {
      KidWell(d, y);
      EntriesCount(y, LiftedAttrs(d.kids[y], NameOf(attrs), y), d.kids[y], tagged);
    }
    assert m.Keys == n.Keys;
    SumSizes(m, n);
    FlatResidue(attrs, d);
    forall e: (nat, Dict) | e in Sum(m)
      ensures e.1.kids == map[]
    {
      SumMembers(m, e);
    }
  }

  lemma {:induction false} FlatResidue(attrs: map<string, string>, d: Dict)
    requires WellEmbedded(d) && AllLiftable(d)
    ensures Residue(attrs, d).kids == map[]
  {
    hide References, WellEmbedded;
  }

  // ------------------------------------------------------------------ passes

  /** What any number of lifts keeps: how many entries are to come; with unique guids the guids;
      with slots that do not clash the entries themselves, and with both which entry belongs to
      which guid. */
  ghost predicate Progress(before: map<nat, Dict>, after: map<nat, Dict>) {
    && AcceptedTree(before) && AcceptedTree(after) && before.Keys <= after.Keys
    && Sum(TreeTags(after, false)) == Sum(TreeTags(before, false))
    && (UniqueGuids(Top(before)) ==> UniqueGuids(Top(after)) && Guids(Top(after)) == Guids(Top(before)))
    && (WellFormed(before) ==> WellFormed(after) && Total(after, false) == Total(before, false))
    && (WellFormed(before) && UniqueGuids(Top(before)) ==> WellFormed(after) && Total(after, true) == Total(before, true))
  }

  lemma {:induction false} ProgressTrans(a: map<nat, Dict>, b: map<nat, Dict>, c: map<nat, Dict>)
    requires Progress(a, b) && Progress(b, c)
    ensures Progress(a, c)
  {
    hide AcceptedTree, WellFormed, Total, TreeTags, Sum, UniqueGuids, Guids;
  }

  lemma {:induction false} LiftProgress(tree: map<nat, Dict>, x: nat, y: nat, z: nat)
    requires AcceptedTree(tree) && x in tree && y in tree[x].kids && Liftable(tree[x].kids[y]) && z !in tree
    requires y !in tree ==> z == y
    ensures Progress(tree, Lift(tree, x, y, z))
  {
    hide AcceptedTree, WellFormed, Total, TreeTags, Sum, UniqueGuids, Guids, Emptied, LiftedDict, NameOf, Liftable;
    LiftAccepted(tree, x, y, z);
    LiftKeepsTags(tree, x, y, z, false);
    if WellFormed(tree) { LiftKeepsTotal(tree, x, y, z, false); }
    if UniqueGuids(Top(tree)) {
      LiftGuids(tree, x, y);
      if WellFormed(tree) { LiftKeepsTotal(tree, x, y, z, true); }
    }
  }

  /** The kids of a container while some have been looked at. */
  function Remaining(c: Dict, todo: set<nat>): map<nat, Dict> {
    map y | y in c.kids && (y in todo || !Liftable(c.kids[y])) :: c.kids[y]
  }

  lemma {:induction false} RemainingLess(c: Dict, todo: set<nat>, y: nat)
    requires y in c.kids
    ensures Remaining(c, todo - {y}) == if Liftable(c.kids[y]) then Remaining(c, todo) - {y} else Remaining(c, todo)
    ensures y in todo ==> y in Remaining(c, todo) && Remaining(c, todo)[y] == c.kids[y]
  {
  }

  lemma {:induction false} AllRemain(c: Dict)
    ensures Remaining(c, c.kids.Keys) == c.kids
  {
  }

  lemma {:induction false} LiftElsewhere(tree: map<nat, Dict>, x: nat, y: nat, z: nat)
    requires x in tree && y in tree[x].kids && z !in tree
    ensures var t := Lift(tree, x, y, z);
            x in t && t[x].kids == tree[x].kids - {y} && forall k :: k in tree && k != x ==> k in t && t[k] == tree[k]
  {
    hide LiftedDict, Slot, NameOf, LiftedName;
  }

  lemma {:induction false} NothingRemains(c: Dict, d: Dict)
    requires d.kids == Remaining(c, {})
    ensures NothingToLift(d)
  {
  }

  lemma {:induction false} SameSize(a: map<nat, Dict>, b: map<nat, Dict>)
    requires a.Keys <= b.Keys
    ensures |a| <= |b| && (|a| == |b| ==> a.Keys == b.Keys)
  {
    assert |a| == |a.Keys| && |b| == |b.Keys|;
    var more := b.Keys - a.Keys;
    assert b.Keys == a.Keys + more && |a.Keys + more| == |a.Keys| + |more|;
  }

  lemma {:induction false} AfterLift(start: map<nat, Dict>, tree: map<nat, Dict>, x: nat, y: nat, z: nat)
    requires AcceptedTree(tree) && Progress(start, tree) && x in tree && y in tree[x].kids && Liftable(tree[x].kids[y])
    requires z !in tree && (y !in tree ==> z == y)
    ensures var t := Lift(tree, x, y, z);
            && Progress(start, t) && AcceptedTree(t) && x in t && t[x].kids == tree[x].kids - {y}
            && forall k :: k in tree && k != x ==> k in t && t[k] == tree[k]
  {
    hide AcceptedTree, Progress, Lift, Liftable;
    LiftProgress(tree, x, y, z);
    ProgressTrans(start, tree, Lift(tree, x, y, z));
    ProgressParts(tree, Lift(tree, x, y, z));
    LiftElsewhere(tree, x, y, z);
  }

  // ------------------------------------------------------------------ the tree that is left

  /** d has become the dict under x, and what it contained the dicts under their guids. */
  ghost predicate Placed(after: map<nat, Dict>, x: nat, attrs: map<string, string>, d: Dict)
    requires WellEmbedded(d)
    decreases d
  {
    && x in after && after[x] == Residue(attrs, d)
    && forall y :: y in d.kids && Liftable(d.kids[y]) ==> Placed(after, y, LiftedAttrs(d.kids[y], NameOf(attrs), y), d.kids[y])
  }

  lemma {:induction false} BagMember(tree: map<nat, Dict>, x: nat, d: Dict)
    requires (x, d) in Bag(tree, true)
    ensures x in tree && tree[x] == d
  {
    hide Sum;
    SumMembers(BagTerms(tree, true), (x, d));
  }

  lemma {:induction false} EntriesArePlaced(after: map<nat, Dict>, x: nat, attrs: map<string, string>, d: Dict)
    requires WellEmbedded(d) && Entries(x, attrs, d, true) <= Bag(after, true)
    ensures Placed(after, x, attrs, d)
    decreases d
  {
    hide Residue, LiftedAttrs, NameOf, WellEmbedded, Entries, Bag, Sum, Liftable;
    EntriesAre(x, attrs, d, true);
    assert (x, Residue(attrs, d)) in Entries(x, attrs, d, true);
    BagMember(after, x, Residue(attrs, d));
    forall y | y in d.kids && Liftable(d.kids[y])
      ensures WellEmbedded(d.kids[y]) && Placed(after, y, LiftedAttrs(d.kids[y], NameOf(attrs), y), d.kids[y])
    {
      KidWell(d, y);
      KidsAreEntries(x, attrs, d, y, true);
      EntriesArePlaced(after, y, LiftedAttrs(d.kids[y], NameOf(attrs), y), d.kids[y]);
    }
  }

  /** text is these words, with blanks around and between them. */
  ghost predicate Spells(text: string, words: seq<string>)
    decreases |text|
  {
    if text == "" then words == []
    else if text[0] == ' ' then Spells(text[1..], words)
    else
      && words != [] && words[0] != "" && ' ' !in words[0] && words[0] <= text
      && (|text| == |words[0]| || text[|words[0]|] == ' ')
      && Spells(text[|words[0]|..], words[1..])
  }

  lemma {:induction false} SplittingSpells(s: string, word: string)
    requires ' ' !in word
    ensures Spells(word + s, NonEmpty(SplitWords(s, word)))
    decreases |s|
  {
    if s == "" {
      assert word + s == word;
      if word != "" { assert word[|word|..] == "" && [word][1..] == []; }
    } else if s[0] == ' ' {
      var rest := SplitWords(s[1..], "");
      SplittingSpells(s[1..], "");
      assert "" + s[1..] == s[1..] && ([word] + rest)[1..] == rest;
      if word == "" {
        assert word + s == s && SplitWords(s, word) == [word] + rest;
        assert [] + NonEmpty(rest) == NonEmpty(rest);
      } else {
        var text, words := word + s, [word] + NonEmpty(rest);
        assert text[|word|..] == s && words[1..] == NonEmpty(rest);
        assert Spells(s, NonEmpty(rest));
        assert text[0] == word[0] && word[0] in word;
      }
    } else {
      assert word + [s[0]] + s[1..] == word + s;
      SplittingSpells(s[1..], word + [s[0]]);
    }
  }

  /** An embedded configuration, as its text spells it: the key of the container that names it,
      a word that is not looked at, and its class. */
  ghost predicate Spelled(kid: Dict, slot: string, class_: string) {
    && "omfEmbeddedConfigObject" in kid.attrs
    && exists words :: Spells(kid.attrs["omfEmbeddedConfigObject"], words) && |words| >= 3 && slot == words[0] && class_ == words[2]
  }

  lemma {:induction false} ConfigSpelled(kid: Dict)
    requires IsConfig(kid) && !IsObject(kid) && |ConfigList(kid)| >= 3
    ensures Spelled(kid, Slot(kid), ObjectOf(kid))
  {
    hide NonEmpty, SplitWords;
    SplittingSpells(kid.attrs[CONFIG], "");
    assert "" + kid.attrs[CONFIG] == kid.attrs[CONFIG];
    assert Spells(kid.attrs["omfEmbeddedConfigObject"], ConfigList(kid));
  }

  /** The number that a string of decimal digits stands for. */
  function NumberOf(digits: string): nat
    requires forall i :: 0 <= i < |digits| ==> '0' <= digits[i] <= '9'
  {
    if digits == "" then 0
    else 10 * NumberOf(digits[..|digits| - 1]) + (digits[|digits| - 1] as int - '0' as int)
  }

  ghost predicate IsDecimal(digits: string, n: nat) {
    && digits != "" && (forall i :: 0 <= i < |digits| ==> '0' <= digits[i] <= '9')
    && NumberOf(digits) == n && (|digits| > 1 ==> digits[0] != '0')
  }

  lemma {:induction false} DigitsAreDecimal(n: nat)
    ensures IsDecimal(Digits(n), n) && (n > 0 ==> Digits(n)[0] != '0')
  {
    var last := "0123456789"[n % 10];
    assert last as int == '0' as int + n % 10;
    if n < 10 {
      assert Digits(n) == [last] && Digits(n)[..0] == "";
    } else {
      DigitsAreDecimal(n / 10);
      var front := Digits(n / 10);
      assert Digits(n) == front + [last] && Digits(n)[..|front|] == front;
    }
  }

  /** The name of a dict that was nested: its own, or one made of the name of its container, its
      class and its guid. */
  ghost predicate NamedAsBefore(container: Dict, former: Dict, kid: Dict, y: nat) {
    && "name" in former.attrs
    && if "name" in kid.attrs then former.attrs["name"] == kid.attrs["name"]
       else
         && "name" in container.attrs && "object" in former.attrs
         && exists digits :: IsDecimal(digits, y)
                             && former.attrs["name"] == container.attrs["name"] + former.attrs["object"] + digits
  }

  /** Two dicts of one class that had no name are told apart by the guids they had in their container. */
  lemma {:induction false} UnnamedDiffer(container: Dict, former: Dict, kid: Dict, y: nat, former': Dict, kid': Dict, y': nat)
    requires NamedAsBefore(container, former, kid, y) && NamedAsBefore(container, former', kid', y') && y != y'
    requires "name" !in kid.attrs && "name" !in kid'.attrs && former.attrs["object"] == former'.attrs["object"]
    ensures former.attrs["name"] != former'.attrs["name"]
  {
    var front := container.attrs["name"] + former.attrs["object"];
    var digits :| IsDecimal(digits, y) && former.attrs["name"] == front + digits;
    var digits' :| IsDecimal(digits', y') && former'.attrs["name"] == front + digits';
    assert (front + digits)[|front|..] == digits && (front + digits')[|front|..] == digits';
  }

  /** Some dict that d contained is a configuration with this slot. */
  ghost predicate IsSlotOf(d: Dict, key: string) {
    exists y, class_ :: y in d.kids && Spelled(d.kids[y], key, class_)
  }

  /** What cannot be moved: neither objects nor embedded configurations. */
  ghost predicate KeepsKids(d: Dict, e: Dict) {
    e.kids == map y | y in d.kids && "object" !in d.kids[y].attrs && "omfEmbeddedConfigObject" !in d.kids[y].attrs :: d.kids[y]
  }

  /** A former container and a dict it contained under guid y: an object names the container as its
      parent, a configuration is named by its slot and has its class, the name is as it was or made
      up, and all other keys are as they were, with none added but slots of what it contained. */
  ghost predicate Related(container: Dict, former: Dict, kid: Dict, y: nat) {
    && NamedAsBefore(container, former, kid, y) && KeepsKids(kid, former)
    && ("object" in kid.attrs ==>
          "parent" in former.attrs && "name" in container.attrs && former.attrs["parent"] == container.attrs["name"])
    && ("object" !in kid.attrs ==>
          && "omfEmbeddedConfigObject" !in former.attrs && "object" in former.attrs
          && exists slot :: Spelled(kid, slot, former.attrs["object"])
                            && slot in container.attrs && container.attrs[slot] == former.attrs["name"])
    && (forall key :: key in kid.attrs && !IsSlotOf(kid, key) ==>
          || key == "omfEmbeddedConfigObject" || (key == "parent" && "object" in kid.attrs)
          || (key in former.attrs && former.attrs[key] == kid.attrs[key]))
    && (forall key :: key in former.attrs ==>
          || key in kid.attrs || IsSlotOf(kid, key)
          || key == "name" || key == if "object" in kid.attrs then "parent" else "object")
  }

  /** A dict that was on the top level has its own keys, unless they are slots, and no others. */
  ghost predicate KeepsKeys(d: Dict, e: Dict) {
    && (forall key :: key in d.attrs && !IsSlotOf(d, key) ==> key in e.attrs && e.attrs[key] == d.attrs[key])
    && (forall key :: key in e.attrs ==> key in d.attrs || IsSlotOf(d, key))
    && KeepsKids(d, e)
  }

  /** The dict under x was d: what d contained is on the top level under its own guid, and the
      two are related, on every level. */
  ghost predicate Linked(after: map<nat, Dict>, x: nat, d: Dict)
    decreases d
  {
    x in after && forall y :: y in d.kids && Liftable(d.kids[y]) ==>
      Linked(after, y, d.kids[y]) && y in after && Related(after[x], after[y], d.kids[y], y)
  }

  /** A reference in what stays of a dict is a slot. */
  lemma {:induction false} ReferencesAreSlots(attrs: map<string, string>, d: Dict, key: string)
    requires WellEmbedded(d) && key in References(attrs, d)
    ensures IsSlotOf(d, key)
  {
    hide References, Slot, ObjectOf, Spelled;
    var y := ReferenceOrigin(attrs, d, key);
    KidWell(d, y);
    assert |ConfigList(d.kids[y])| >= 3;
    ConfigSpelled(d.kids[y]);
  }

  lemma {:induction false} ResidueKeepsKids(attrs: map<string, string>, d: Dict)
    requires WellEmbedded(d)
    ensures KeepsKids(d, Residue(attrs, d))
  {
    hide References, WellEmbedded;
  }

  lemma {:induction false} LiftedKeys(kid: Dict, container: string, y: nat)
    requires Liftable(kid) && !(IsObject(kid) && IsConfig(kid))
    ensures var a := LiftedAttrs(kid, container, y);
            && NAME in a && a[NAME] == LiftedName(kid, container, y) && OBJECT in a && a[OBJECT] == ObjectOf(kid) && CONFIG !in a
            && (forall key :: key in a ==> key in kid.attrs || key == NAME || key == if IsObject(kid) then PARENT else OBJECT)
            && (forall key :: key in kid.attrs && key != NAME && key != CONFIG && (key == PARENT ==> !IsObject(kid))
                              ==> key in a && a[key] == kid.attrs[key])
  {
    hide LiftedName, NonEmpty, SplitWords;
  }

  lemma {:induction false} ResidueNamed(attrs: map<string, string>, d: Dict, y: nat)
    requires WellEmbedded(d) && y in d.kids && Liftable(d.kids[y]) && NAME in attrs && WellEmbedded(d.kids[y])
    ensures NamedAsBefore(Residue(attrs, d), Residue(LiftedAttrs(d.kids[y], NameOf(attrs), y), d.kids[y]), d.kids[y], y)
  {
    hide Residue, References, WellEmbedded, LiftedAttrs, ObjectOf, Digits, IsDecimal;
    var kid := d.kids[y];
    var lifted := LiftedAttrs(kid, NameOf(attrs), y);
    KidWell(d, y);
    LiftedKeys(kid, NameOf(attrs), y);
    NotReferred(attrs, d, NAME);
    NotReferred(lifted, kid, NAME);
    NotReferred(lifted, kid, OBJECT);
    DigitsAreDecimal(y);
  }

  lemma {:induction false} ResidueHasKeys(attrs: map<string, string>, d: Dict, y: nat, key: string)
    requires WellEmbedded(d) && y in d.kids && Liftable(d.kids[y]) && NAME in attrs && WellEmbedded(d.kids[y])
    ensures var kid, e := d.kids[y], Residue(LiftedAttrs(d.kids[y], NameOf(attrs), y), d.kids[y]);
            && (key in kid.attrs && !IsSlotOf(kid, key) ==>
                  || key == CONFIG || (key == PARENT && IsObject(kid)) || (key in e.attrs && e.attrs[key] == kid.attrs[key]))
            && (key in e.attrs ==>
                  key in kid.attrs || IsSlotOf(kid, key) || key == NAME || key == if IsObject(kid) then PARENT else OBJECT)
  {
    hide References, WellEmbedded, LiftedAttrs, ObjectOf, NameOf, IsSlotOf;
    var kid := d.kids[y];
    var lifted := LiftedAttrs(kid, NameOf(attrs), y);
    KidWell(d, y);
    LiftedKeys(kid, NameOf(attrs), y);
    if key in References(lifted, kid) { ReferencesAreSlots(lifted, kid, key); }
  }

  lemma {:induction false} ResiduesRelated(attrs: map<string, string>, d: Dict, y: nat)
    requires WellEmbedded(d) && y in d.kids && Liftable(d.kids[y]) && NAME in attrs && WellEmbedded(d.kids[y])
    ensures Related(Residue(attrs, d), Residue(LiftedAttrs(d.kids[y], NameOf(attrs), y), d.kids[y]), d.kids[y], y)
  {
    hide Residue, References, WellEmbedded, LiftedAttrs, Slot, NameOf, ObjectOf, NamedAsBefore, KeepsKids, IsSlotOf, Spelled;
    var kid := d.kids[y];
    var lifted := LiftedAttrs(kid, NameOf(attrs), y);
    ResidueNamed(attrs, d, y);
    ResidueKeepsKids(lifted, kid);
    if IsObject(kid) { ObjectNamesContainer(attrs, d, y); }
    if IsConfig(kid) {
      ConfigIsReferred(attrs, d, y);
      ConfigAccepted(d, y);
      ConfigSpelled(kid);
    }
    forall key
      ensures key in kid.attrs && !IsSlotOf(kid, key) ==>
                || key == CONFIG || (key == PARENT && IsObject(kid))
                || (key in Residue(lifted, kid).attrs && Residue(lifted, kid).attrs[key] == kid.attrs[key])
      ensures key in Residue(lifted, kid).attrs ==>
                key in kid.attrs || IsSlotOf(kid, key) || key == NAME || key == if IsObject(kid) then PARENT else OBJECT
    {
      ResidueHasKeys(attrs, d, y, key);
    }
  }

  lemma {:induction false} ConfigAccepted(d: Dict, y: nat)
    requires WellEmbedded(d) && y in d.kids && IsConfig(d.kids[y])
    ensures !IsObject(d.kids[y]) && |ConfigList(d.kids[y])| >= 3
  {
    hide ConfigList;
  }

  lemma {:induction false} PlacedIsLinked(after: map<nat, Dict>, x: nat, attrs: map<string, string>, d: Dict)
    requires WellEmbedded(d) && Placed(after, x, attrs, d) && (NothingToLift(d) || NAME in attrs)
    ensures Linked(after, x, d)
    decreases d
  {
    hide Residue, LiftedAttrs, NameOf, WellEmbedded, Related, NothingToLift, Liftable;
    forall y | y in d.kids && Liftable(d.kids[y])
      ensures Linked(after, y, d.kids[y]) && y in after && Related(after[x], after[y], d.kids[y], y)
    {
      SomethingToLift(d, y);
      KidWell(d, y);
      LiftedWell(d.kids[y], NameOf(attrs), y);
      ResiduesRelated(attrs, d, y);
      PlacedIsLinked(after, y, LiftedAttrs(d.kids[y], NameOf(attrs), y), d.kids[y]);
    }
  }

  lemma {:induction false} ResidueKeepsKeys(d: Dict)
    requires WellEmbedded(d)
    ensures KeepsKeys(d, Residue(d.attrs, d))
  {
    hide References, WellEmbedded, IsSlotOf, KeepsKids;
    ResidueKeepsKids(d.attrs, d);
    forall key | key in References(d.attrs, d)
      ensures IsSlotOf(d, key)
    {
      ReferencesAreSlots(d.attrs, d, key);
    }
  }

  /** The flat tree, in the terms of the tree it was made from. */
  lemma {:induction false} AllLinked(before: map<nat, Dict>, after: map<nat, Dict>)
    requires WellFormed(before) && Bag(after, true) == Total(before, true)
    ensures forall x :: x in before ==> Linked(after, x, before[x]) && x in after && KeepsKeys(before[x], after[x])
  {
    hide WellEmbedded, Entries, Bag, Sum, Linked, NothingToLift, Placed, KeepsKeys;
    forall x | x in before
      ensures Linked(after, x, before[x]) && x in after && KeepsKeys(before[x], after[x])
    {
      SumTake(TreeTerms(before, true), x);
      EntriesArePlaced(after, x, before[x].attrs, before[x]);
      PlacedIsLinked(after, x, before[x].attrs, before[x]);
      PlacedAt(after, x, before[x].attrs, before[x]);
      ResidueKeepsKeys(before[x]);
    }
  }

  lemma {:induction false} PlacedAt(after: map<nat, Dict>, x: nat, attrs: map<string, string>, d: Dict)
    requires WellEmbedded(d) && Placed(after, x, attrs, d)
    ensures x in after && after[x] == Residue(attrs, d)
  {
    hide WellEmbedded, Residue;
  }

  // ------------------------------------------------------------------ with guids used twice

  /** The dict under x was d: what d contained is on the top level, whatever its key is now, and
      the two are related, on every level. */
  ghost predicate LinkedUnderSomeKeys(after: map<nat, Dict>, x: nat, d: Dict)
    decreases d
  {
    x in after && forall y :: y in d.kids && Liftable(d.kids[y]) ==>
      exists z :: z in after && LinkedUnderSomeKeys(after, z, d.kids[y]) && Related(after[x], after[z], d.kids[y], y)
  }

  ghost predicate LinkedSomewhere(after: map<nat, Dict>, d: Dict) {
    exists x :: x in after && LinkedUnderSomeKeys(after, x, d) && KeepsKeys(d, after[x])
  }

  lemma {:induction false} BagKey(tree: map<nat, Dict>, d: Dict) returns (x: nat)
    requires (0, d) in Bag(tree, false)
    ensures x in tree && tree[x] == d
  {
    hide Sum;
    SumMembers(BagTerms(tree, false), (0, d));
    x :| x in BagTerms(tree, false) && (0, d) in BagTerms(tree, false)[x];
  }

  lemma {:induction false} EntriesAreLinked(after: map<nat, Dict>, y: nat, attrs: map<string, string>, d: Dict, x: nat)
    requires WellEmbedded(d) && Entries(y, attrs, d, false) <= Bag(after, false) && (NothingToLift(d) || NAME in attrs)
    requires x in after && after[x] == Residue(attrs, d)
    ensures LinkedUnderSomeKeys(after, x, d)
    decreases d
  {
    hide Residue, LiftedAttrs, NameOf, WellEmbedded, Entries, Bag, Sum, Liftable, Related, NothingToLift;
    forall k | k in d.kids && Liftable(d.kids[k])
      ensures exists z :: z in after && LinkedUnderSomeKeys(after, z, d.kids[k]) && Related(after[x], after[z], d.kids[k], k)
    {
      KidWell(d, k);
      var z := KidLinked(after, y, attrs, d, k);
      EntriesAreLinked(after, k, LiftedAttrs(d.kids[k], NameOf(attrs), k), d.kids[k], z);
    }
  }

  lemma {:induction false} KidLinked(after: map<nat, Dict>, y: nat, attrs: map<string, string>, d: Dict, k: nat) returns (z: nat)
    requires WellEmbedded(d) && Entries(y, attrs, d, false) <= Bag(after, false) && (NothingToLift(d) || NAME in attrs)
    requires k in d.kids && Liftable(d.kids[k]) && WellEmbedded(d.kids[k])
    ensures z in after && after[z] == Residue(LiftedAttrs(d.kids[k], NameOf(attrs), k), d.kids[k])
    ensures Entries(k, LiftedAttrs(d.kids[k], NameOf(attrs), k), d.kids[k], false) <= Bag(after, false)
    ensures NAME in LiftedAttrs(d.kids[k], NameOf(attrs), k)
    ensures Related(Residue(attrs, d), after[z], d.kids[k], k)
  {
    hide Residue, LiftedAttrs, NameOf, WellEmbedded, Entries, Bag, Sum, Liftable, Related, NothingToLift;
    SomethingToLift(d, k);
    KidWell(d, k);
    LiftedWell(d.kids[k], NameOf(attrs), k);
    KidsAreEntries(y, attrs, d, k, false);
    var kid := LiftedAttrs(d.kids[k], NameOf(attrs), k);
    EntriesAre(k, kid, d.kids[k], false);
    assert (0, Residue(kid, d.kids[k])) in Entries(k, kid, d.kids[k], false);
    z := BagKey(after, Residue(kid, d.kids[k]));
    ResiduesRelated(attrs, d, k);
  }

  /** The same, with keys that are not known. */
  lemma {:induction false} AllLinkedSomewhere(before: map<nat, Dict>, after: map<nat, Dict>)
    requires WellFormed(before) && Bag(after, false) == Total(before, false)
    ensures forall x :: x in before ==> LinkedSomewhere(after, before[x])
  {
    hide WellEmbedded, Entries, Bag, Sum, LinkedUnderSomeKeys, NothingToLift, KeepsKeys, Residue;
    forall x | x in before
      ensures LinkedSomewhere(after, before[x])
    {
      var d := before[x];
      SumTake(TreeTerms(before, false), x);
      EntriesAre(x, d.attrs, d, false);
      assert (0, Residue(d.attrs, d)) in Entries(x, d.attrs, d, false);
      var z := BagKey(after, Residue(d.attrs, d));
      EntriesAreLinked(after, x, d.attrs, d, z);
      ResidueKeepsKeys(d);
    }
  }

  class Feeder {
    var tree: map<nat, Dict>

    /** The first free key from y on. */
    method FreeKey(y: nat) returns (z: nat)
      ensures z !in tree && (y !in tree ==> z == y)
    {
      z := y;
      ghost var above := tree.Keys;
      while z in tree
        invariant y !in tree ==> z == y
        invariant forall k :: k in tree && k >= z ==> k in above
        decreases above
      {
        above := above - {z};
        z := z + 1;
      }
    }

    /** Lines 377-396: an embedded object. */
    method LiftObject(x: nat, y: nat) returns (z: nat)
      requires x in tree && y in tree[x].kids && IsObject(tree[x].kids[y]) && !IsConfig(tree[x].kids[y]) && NAME in tree[x].attrs
      modifies this
      ensures z !in old(tree) && (y !in old(tree) ==> z == y)
      ensures tree == Lift(old(tree), x, y, z)
    {
      hide NonEmpty, SplitWords, Digits;
      var kid := Put(tree[x].kids[y], PARENT, tree[x].attrs[NAME]);
      if NAME !in kid.attrs {
        kid := Put(kid, NAME, tree[x].attrs[NAME] + kid.attrs[OBJECT] + Digits(y));
      }
      assert kid.attrs == LiftedAttrs(tree[x].kids[y], NameOf(tree[x].attrs), y);
      z := FreeKey(y);
      tree := tree[z := kid];
      tree := tree[x := Dict(tree[x].attrs, tree[x].kids - {y})];
      assert tree == Lift(old(tree), x, y, z);
    }

    /** Lines 397-420: an embedded configuration. */
    method LiftConfig(x: nat, y: nat) returns (z: nat)
      requires x in tree && y in tree[x].kids && IsConfig(tree[x].kids[y]) && !IsObject(tree[x].kids[y]) && NAME in tree[x].attrs
      requires |ConfigList(tree[x].kids[y])| >= 3
      modifies this
      ensures z !in old(tree) && (y !in old(tree) ==> z == y)
      ensures tree == Lift(old(tree), x, y, z)
    {
      hide NonEmpty, SplitWords, Digits;
      var kid := tree[x].kids[y];
      var configList := NonEmpty(SplitWords(kid.attrs[CONFIG], ""));
      if NAME !in kid.attrs {
        kid := Put(kid, NAME, tree[x].attrs[NAME] + configList[2] + Digits(y));
      }
      kid := Put(kid, OBJECT, configList[2]);
      var container := Put(tree[x], configList[0], kid.attrs[NAME]);
      kid := Dict(kid.attrs - {CONFIG}, kid.kids);
      assert kid.attrs == LiftedAttrs(tree[x].kids[y], NameOf(tree[x].attrs), y);
      z := FreeKey(y);
      tree := tree[x := container];
      tree := tree[z := kid];
      tree := tree[x := Dict(tree[x].attrs, tree[x].kids - {y})];
      assert tree[x] == Emptied(old(tree)[x], y);
      assert tree == Lift(old(tree), x, y, z);
    }

    /** Lines 376-420 for one x: its kids, in any order. */
    method DeEmbedContainer(x: nat, container: Dict)
      requires AcceptedTree(tree) && x in tree && tree[x] == container
      modifies this
      ensures Progress(old(tree), tree) && x in tree && NothingToLift(tree[x])
      ensures forall k :: k in old(tree) && k != x ==> tree[k] == old(tree)[k]
    {
      hide Progress, Lift, Remaining, AcceptedTree, NothingToLift, ConfigList;
      var ys := container.kids.Keys;
      ProgressSelf(tree);
      AllRemain(container);
      while ys != {}
        invariant Progress(old(tree), tree) && AcceptedTree(tree) && x in tree && old(tree).Keys <= tree.Keys
        invariant ys <= container.kids.Keys && tree[x].kids == Remaining(container, ys)
        invariant forall k :: k in old(tree) && k != x ==> tree[k] == old(tree)[k]
      {
        var y :| y in ys;
        RemainingLess(container, ys, y);
        ghost var was := tree;
        if IsObject(container.kids[y]) {
          NameToLiftWith(tree, x, y);
          var z := LiftObject(x, y);
          AfterLift(old(tree), was, x, y, z);
        }
        if IsConfig(container.kids[y]) {
          NameToLiftWith(was, x, y);
          var z := LiftConfig(x, y);
          AfterLift(old(tree), was, x, y, z);
        }
        ys := ys - {y};
      }
      NothingRemains(container, tree[x]);
    }

    /** _deEmbedOnce: every top-level dict there was at the start, in any order. */
    method DeEmbedOnce()
      requires AcceptedTree(tree)
      modifies this
      ensures Progress(old(tree), tree)
      ensures forall x :: x in old(tree) ==> x in tree && NothingToLift(tree[x])
    {
      hide Progress, NothingToLift, AcceptedTree;
      var iterTree := tree;
      var xs := iterTree.Keys;
      ProgressSelf(tree);
      while xs != {}
        invariant Progress(old(tree), tree) && AcceptedTree(tree) && old(tree).Keys <= tree.Keys
        invariant xs <= iterTree.Keys
        invariant forall x :: x in xs ==> tree[x] == iterTree[x]
        invariant forall x :: x in iterTree && x !in xs ==> NothingToLift(tree[x])
      {
        var x :| x in xs;
        ghost var was := tree;
        DeEmbedContainer(x, iterTree[x]);
        ProgressTrans(old(tree), was, tree);
        ProgressParts(was, tree);
        xs := xs - {x};
      }
    }

    /** fullyDeEmbed: passes until the tree no longer grows.  Whatever the order and whatever
        keys collide, there is one top-level dict in the end for each there was to come, so none
        has been overwritten.  If slots do not clash, they are the entries the tree was to become;
        with unique guids each has its own guid for a key, and containers and what they contained
        refer to each other on every level. */
    method FullyDeEmbed()
      requires AcceptedTree(tree)
      modifies this
      ensures forall x :: x in tree ==> NothingToLift(tree[x])
      ensures |tree| == |Sum(TreeTags(old(tree), false))|
      ensures UniqueGuids(Top(old(tree))) ==> UniqueGuids(Top(tree)) && Guids(Top(tree)) == Guids(Top(old(tree)))
      ensures WellFormed(old(tree)) ==> Bag(tree, false) == Total(old(tree), false)
      ensures WellFormed(old(tree)) && UniqueGuids(Top(old(tree))) ==> Bag(tree, true) == Total(old(tree), true)
      ensures WellFormed(old(tree)) ==> forall x :: x in old(tree) ==> LinkedSomewhere(tree, old(tree)[x])
      ensures WellFormed(old(tree)) && UniqueGuids(Top(old(tree))) ==>
                forall x :: x in old(tree) ==> Linked(tree, x, old(tree)[x]) && x in tree && KeepsKeys(old(tree)[x], tree[x])
    {
      hide AcceptedTree, WellFormed, NothingToLift, Total, Bag, Sum, TreeTags, UniqueGuids, Guids, Linked,
        LinkedSomewhere, KeepsKeys;
      var lenDiff := 1;
      ProgressSelf(tree);
      while lenDiff != 0
        invariant Progress(old(tree), tree) && AcceptedTree(tree)
        invariant lenDiff == 0 ==> forall x :: x in tree ==> NothingToLift(tree[x])
        decreases |Sum(TreeTags(old(tree), false))| - |tree|, lenDiff != 0
      {
        ghost var was := tree;
        var currLen := |tree|;
        DeEmbedOnce();
        ProgressTrans(old(tree), was, tree);
        SameSize(was, tree);
        TagsFit(tree);
        TagsFit(was);
        lenDiff := |tree| - currLen;
      }
      FlatTags(tree);
      if WellFormed(old(tree)) {
        FlatIsTotal(tree, false);
        FlatIsTotal(tree, true);
        AllLinkedSomewhere(old(tree), tree);
        if UniqueGuids(Top(old(tree))) { AllLinked(old(tree), tree); }
      }
    }
  }

  lemma {:induction false} ProgressSelf(tree: map<nat, Dict>)
    requires AcceptedTree(tree)
    ensures Progress(tree, tree)
  {
    hide AcceptedTree, WellFormed, Total, TreeTags, Sum, UniqueGuids, Guids;
  }

  lemma {:induction false} ProgressParts(before: map<nat, Dict>, after: map<nat, Dict>)
    requires Progress(before, after)
    ensures AcceptedTree(after) && before.Keys <= after.Keys
  {
    hide AcceptedTree, WellFormed, Total, TreeTags, Sum, UniqueGuids, Guids;
  }

  /** A container that still has something to lift has a name. */
  lemma {:induction false} NameToLiftWith(tree: map<nat, Dict>, x: nat, y: nat)
    requires AcceptedTree(tree) && x in tree && y in tree[x].kids && Liftable(tree[x].kids[y])
    ensures NAME in tree[x].attrs
    ensures var kid := tree[x].kids[y];
            !(IsObject(kid) && IsConfig(kid)) && (IsConfig(kid) ==> |ConfigList(kid)| >= 3)
  {
    hide ConfigList;
  }

  /** The result is flat exactly when every nested dict is an object or a configuration; what
      stands on the top level is free.  Then there is one entry for every dict there was. */
  lemma {:induction false} FlattenedCount(before: map<nat, Dict>, after: map<nat, Dict>)
    requires WellFormed(before) && Bag(after, false) == Total(before, false)
    ensures Flat(after) <==> forall x :: x in before ==> AllLiftable(before[x])
    ensures Flat(after) ==> |after| == |AllOf(before)|
  {
    hide AllLiftable, Flat, Total, Bag, AllOf, WellFormed;
    if forall x :: x in before ==> AllLiftable(before[x]) {
      AllLiftedCount(before, after);
    } else {
      var x :| x in before && !AllLiftable(before[x]);
      NestedStays(before, after, x);
    }
  }

  ghost predicate Flat(tree: map<nat, Dict>) {
    forall x :: x in tree ==> tree[x].kids == map[]
  }

  lemma {:induction false} AllLiftedCount(before: map<nat, Dict>, after: map<nat, Dict>)
    requires WellFormed(before) && Bag(after, false) == Total(before, false)
    requires forall x :: x in before ==> AllLiftable(before[x])
    ensures |after| == |AllOf(before)| && Flat(after)
  {
    hide WellEmbedded, Entries, Sum, AllDicts, AllLiftable;
    var m, n := TreeTerms(before, false), map x | x in before :: AllDicts(x, before[x]);
    forall x | x in before
      ensures |m[x]| == |n[x]| && forall e: (nat, Dict) :: e in m[x] ==> e.1.kids == map[]
    {
      EntriesCount(x, before[x].attrs, before[x], false);
    }
    SumSizes(m, n);
    BagSize(after, false);
    forall x | x in after
      ensures after[x].kids == map[]
    {
      SumTake(BagTerms(after, false), x);
      assert (0, after[x]) in BagTerms(after, false)[x];
      SumMembers(m, (0, after[x]));
    }
  }

  lemma {:induction false} NestedStays(before: map<nat, Dict>, after: map<nat, Dict>, x: nat)
    requires WellFormed(before) && Bag(after, false) == Total(before, false)
    requires x in before && !AllLiftable(before[x])
    ensures !Flat(after)
  {
    hide WellEmbedded, Entries, Sum, Bag, AllLiftable;
    var e := NestedEntry(x, before[x].attrs, before[x]);
    SumTake(TreeTerms(before, false), x);
    var z := BagKey(after, e);
  }

  /** A dict that cannot be lifted stays where it is. */
  lemma {:induction false} NestedEntry(x: nat, attrs: map<string, string>, d: Dict) returns (e: Dict)
    requires WellEmbedded(d) && !AllLiftable(d)
    ensures (0, e) in Entries(x, attrs, d, false) && e.kids != map[]
    decreases d
  {
    hide LiftedAttrs, NameOf, Sum, Entries, WellEmbedded, References, Liftable;
    var y :| y in d.kids && (!Liftable(d.kids[y]) || !AllLiftable(d.kids[y]));
    EntriesAre(x, attrs, d, false);
    if !Liftable(d.kids[y]) {
      e := Residue(attrs, d);
      assert y in e.kids;
    } else {
      KidWell(d, y);
      KidsAreEntries(x, attrs, d, y, false);
      e := NestedEntry(y, LiftedAttrs(d.kids[y], NameOf(attrs), y), d.kids[y]);
    }
  }

  lemma {:induction false} BagSize(tree: map<nat, Dict>, tagged: bool)
    ensures |Bag(tree, tagged)| == |tree|
  {
    hide Sum;
    SumOfSingles(BagTerms(tree, tagged));
    assert BagTerms(tree, tagged).Keys == tree.Keys;
    assert |BagTerms(tree, tagged)| == |BagTerms(tree, tagged).Keys| && |tree| == |tree.Keys|;
  }

  lemma {:induction false} SumOfSingles<T>(m: map<nat, multiset<T>>)
    requires forall k :: k in m ==> |m[k]| == 1
    ensures |Sum(m)| == |m|
    decreases |m|
  {
    if m != map[] {
      var k :| k in m;
      SumTake(m, k);
      MapMinus(m, k);
      SumOfSingles(m - {k});
    } else {
      assert |m| == 0;
    }
  }

  /** A flat tree's keys are all the guids it has. */
  lemma {:induction false} FlatKeys(tree: map<nat, Dict>)
    requires Flat(tree)
    ensures Guids(Top(tree)) == tree.Keys
  {
    forall g | g in Guids(Top(tree))
      ensures g in tree
    {
      var k := GuidOrigin(Top(tree), g);
      assert Top(tree).kids[k] == tree[k];
    }
    forall g | g in tree
      ensures g in Guids(Top(tree))
    {
      KidGuids(Top(tree), g);
    }
  }

  /** The parser's guids: lifting a dict of a parsed tree never meets a taken key, and if every
      nested dict is an object or a configuration, the flat tree has the keys 0, ..., n - 1. */
  lemma {:induction false} ParsedTreeFlattens(tokens: seq<Token>, after: map<nat, Dict>)
    requires Parse(tokens).Success? && WellFormed(Parse(tokens).value.kids)
    requires forall x :: x in Parse(tokens).value.kids ==> AllLiftable(Parse(tokens).value.kids[x])
    requires Bag(after, false) == Total(Parse(tokens).value.kids, false)
    requires UniqueGuids(Top(Parse(tokens).value.kids)) ==> Guids(Top(after)) == Guids(Top(Parse(tokens).value.kids))
    ensures UniqueGuids(Top(Parse(tokens).value.kids))
    ensures |after| == |AllOf(Parse(tokens).value.kids)| && after.Keys == FirstGuids(|after|)
  {
    hide WellFormed, AllLiftable, Bag, Total, UniqueGuids, Guids, Flat, AllOf, Parse, FirstGuids;
    ParsedGuidsAreUnique(tokens);
    GuidsOfKids(Parse(tokens).value, Top(Parse(tokens).value.kids));
    FlattenedCount(Parse(tokens).value.kids, after);
    FlatKeys(after);
    var n :| Guids(Parse(tokens).value) == FirstGuids(n);
    FirstGuidsSize(n);
    assert |after| == |after.Keys|;
  }

  lemma {:induction false} FirstGuidsSize(n: nat)
    ensures |FirstGuids(n)| == n
  {
    if n > 0 { FirstGuidsSize(n - 1); }
  }
}
