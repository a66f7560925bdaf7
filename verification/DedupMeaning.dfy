/** What the six dedupGlm calls mean: every surviving object unfolds to what it unfolded to
    before, and no two surviving objects of a merged class unfold to the same. */
module DedupMeaning {
  import opened Prelude
  import opened Dedup

  /** An object with every reference replaced by the meaning of what it names; names are gone. */
  datatype Meaning = Meaning(content: Obj, parts: map<Slot, Meaning>)

  lemma KeyExists(glm: Glm, o: Obj, s: Slot)
    requires RefsOk(glm, o) && s in o.slots && IsRef(o.class_, s)
    ensures exists k :: Named(glm, k, o.slots[s])
  {
  }

  ghost function Referred(glm: Glm, o: Obj, s: Slot): (r: Obj)
    requires UniqueNames(glm) && Resolved(glm) && RefsOk(glm, o) && s in o.slots && IsRef(o.class_, s)
    ensures RefsOk(glm, r) && Targets(o.class_, s, r.class_)
    ensures exists k :: Named(glm, k, o.slots[s]) && glm[k] == r
  {
    var k :| Named(glm, k, o.slots[s]);
    glm[k]
  }

  ghost function Unfold(glm: Glm, o: Obj): Meaning
    requires UniqueNames(glm) && Resolved(glm) && RefsOk(glm, o)
    decreases Level(o.class_)
  {
    Meaning(o.(name := None, slots := map s | s in o.slots && !IsRef(o.class_, s) :: o.slots[s]),
            map s | s in o.slots && IsRef(o.class_, s) :: Unfold(glm, Referred(glm, o, s)))
  }

  // ------------------------------------------------------------------ one call

  /** m merges objects of class compName into equal ones that stay, and all that stay differ. */
  ghost predicate Renaming(glm: Glm, compName: Class, m: map<string, string>) {
    && (forall n :: n in m ==> m[n] !in m && MergesInto(glm, compName, n, m[n]))
    && (forall k, l :: Stays(glm, compName, m, k) && Stays(glm, compName, m, l) && k != l
                       ==> Content(glm[k]) != Content(glm[l]))
  }

  ghost predicate MergesInto(glm: Glm, compName: Class, n: string, n': string) {
    exists k, l :: Named(glm, k, n) && Named(glm, l, n')
                   && glm[k].class_ == compName && Content(glm[k]) == Content(glm[l])
  }

  ghost predicate Stays(glm: Glm, compName: Class, m: map<string, string>, k: nat) {
    k in glm && glm[k].class_ == compName && !IsMerged(glm[k], m)
  }

  lemma {:induction false} RunMerges(glm: Glm, compName: Class, list: seq<Obj>, m: map<string, string>, n: string)
    requires SortedList(glm, compName, list) && RenamesRuns(list, m) && n in m
    ensures m[n] !in m && MergesInto(glm, compName, n, m[n])
  {
    var i :| 0 <= i < |list| && list[i].name.value == n;
    assert RenamedAt(list, m, i);
    var r := RunEnd(list, i);
    assert RenamedAt(list, m, r);
    var k :| k in glm && glm[k] == list[i] && glm[k].class_ == compName;
    var l :| l in glm && glm[l] == list[r] && glm[l].class_ == compName;
    assert Named(glm, k, n) && Named(glm, l, m[n]);
  }

  lemma {:induction false} StayingApart(list: seq<Obj>, i: nat, j: nat)
    requires Grouped(list) && i < j < |list| && !SameAsNext(list, i)
    ensures Content(list[i]) != Content(list[j])
  {
  }

  lemma {:induction false} StayerIndex(glm: Glm, compName: Class, list: seq<Obj>, m: map<string, string>, k: nat)
    returns (i: nat)
    requires SortedList(glm, compName, list) && RenamesRuns(list, m) && Stays(glm, compName, m, k)
    ensures i < |list| && list[i] == glm[k] && !SameAsNext(list, i) && Named(glm, k, list[i].name.value)
  {
    i :| 0 <= i < |list| && list[i] == glm[k];
    assert RenamedAt(list, m, i);
  }

  lemma {:induction false} StayersDiffer(glm: Glm, compName: Class, list: seq<Obj>, m: map<string, string>, k: nat, l: nat)
    requires SortedList(glm, compName, list) && RenamesRuns(list, m) && UniqueNames(glm)
    requires Stays(glm, compName, m, k) && Stays(glm, compName, m, l) && k != l
    ensures Content(glm[k]) != Content(glm[l])
  {
    var i := StayerIndex(glm, compName, list, m, k);
    var j := StayerIndex(glm, compName, list, m, l);
    if i < j {
      StayingApart(list, i, j);
    } else if j < i {
      StayingApart(list, j, i);
    }
  }

  /** What a call computes from the sorted list is such a renaming. */
  lemma {:induction false} RunsAreRenaming(glm: Glm, compName: Class, list: seq<Obj>, m: map<string, string>)
    requires SortedList(glm, compName, list) && RenamesRuns(list, m) && UniqueNames(glm)
    ensures Renaming(glm, compName, m)
  {
    forall n | n in m
      ensures m[n] !in m && MergesInto(glm, compName, n, m[n])
    {
      RunMerges(glm, compName, list, m, n);
    }
    forall k, l | Stays(glm, compName, m, k) && Stays(glm, compName, m, l) && k != l
      ensures Content(glm[k]) != Content(glm[l])
    {
      StayersDiffer(glm, compName, list, m, k, l);
    }
  }

  lemma {:induction false} AfterKeepsNames(glm: Glm, compName: Class, m: map<string, string>)
    requires UniqueNames(glm)
    ensures UniqueNames(After(glm, compName, m))
  {
    var g := After(glm, compName, m);
    forall k, l, n | Named(g, k, n) && Named(g, l, n)
      ensures k == l
    {
      assert Named(glm, k, n) && Named(glm, l, n);
    }
  }

  /** Renaming a reference leads to an object of the same content. */
  lemma {:induction false} FollowRename(glm: Glm, compName: Class, m: map<string, string>, k: nat, n: string)
    returns (l: nat)
    requires UniqueNames(glm) && Renaming(glm, compName, m) && Named(glm, k, n)
    ensures Named(After(glm, compName, m), l, RenameIn(m, n))
    ensures Named(glm, l, RenameIn(m, n)) && Content(glm[l]) == Content(glm[k])
    ensures glm[k].class_ != compName ==> l == k && RenameIn(m, n) == n
  {
    if n in m {
      assert MergesInto(glm, compName, n, m[n]);
      var k', l' :| Named(glm, k', n) && Named(glm, l', m[n])
                    && glm[k'].class_ == compName && Content(glm[k']) == Content(glm[l']);
      assert k' == k;
      l := l';
    } else {
      l := k;
    }
  }

  /** A reference that is not rewired does not name a merged object. */
  lemma {:induction false} ReferenceAfter(glm: Glm, compName: Class, m: map<string, string>, o: Obj, s: Slot)
    returns (k: nat, l: nat)
    requires UniqueNames(glm) && Renaming(glm, compName, m) && RefsOk(glm, o)
    requires s in o.slots && IsRef(o.class_, s)
    ensures Named(glm, k, o.slots[s]) && Targets(o.class_, s, glm[k].class_)
    ensures Named(After(glm, compName, m), l, RewireObj(compName, o, m).slots[s])
    ensures l in glm && Content(glm[l]) == Content(glm[k])
  {
    k :| Named(glm, k, o.slots[s]) && Targets(o.class_, s, glm[k].class_);
    l := FollowRename(glm, compName, m, k, o.slots[s]);
  }

  lemma {:induction false} AfterRefsOk(glm: Glm, compName: Class, m: map<string, string>, o: Obj)
    requires UniqueNames(glm) && Renaming(glm, compName, m) && RefsOk(glm, o)
    ensures RefsOk(After(glm, compName, m), RewireObj(compName, o, m))
  {
    var o', g := RewireObj(compName, o, m), After(glm, compName, m);
    forall s | s in o'.slots && IsRef(o'.class_, s)
      ensures exists k :: Named(g, k, o'.slots[s]) && Targets(o'.class_, s, g[k].class_)
    {
      var k, l := ReferenceAfter(glm, compName, m, o, s);
    }
  }

  lemma {:induction false} AfterResolved(glm: Glm, compName: Class, m: map<string, string>)
    requires UniqueNames(glm) && Renaming(glm, compName, m) && Resolved(glm)
    ensures Resolved(After(glm, compName, m))
  {
    forall k | k in After(glm, compName, m)
      ensures RefsOk(After(glm, compName, m), After(glm, compName, m)[k])
    {
      AfterRefsOk(glm, compName, m, glm[k]);
    }
  }

  lemma {:induction false} ReferredIs(glm: Glm, o: Obj, s: Slot, k: nat)
    requires UniqueNames(glm) && Resolved(glm) && RefsOk(glm, o) && s in o.slots && IsRef(o.class_, s)
    requires Named(glm, k, o.slots[s])
    ensures Referred(glm, o, s) == glm[k]
  {
  }

  ghost predicate SameSlots(glm: Glm, o: Obj, g: Glm, p: Obj)
    requires UniqueNames(glm) && Resolved(glm) && RefsOk(glm, o)
    requires UniqueNames(g) && Resolved(g) && RefsOk(g, p)
  {
    && o.class_ == p.class_ && o.slots.Keys == p.slots.Keys && o.rest == p.rest
    && forall s :: s in o.slots ==>
         if IsRef(o.class_, s) then Unfold(g, Referred(g, p, s)) == Unfold(glm, Referred(glm, o, s))
         else o.slots[s] == p.slots[s]
  }

  lemma {:induction false} SameContent(glm: Glm, o: Obj, g: Glm, p: Obj)
    requires UniqueNames(glm) && Resolved(glm) && RefsOk(glm, o)
    requires UniqueNames(g) && Resolved(g) && RefsOk(g, p)
    requires SameSlots(glm, o, g, p)
    ensures Unfold(g, p).content == Unfold(glm, o).content
  {
    assert Unfold(g, p).content.slots == Unfold(glm, o).content.slots;
  }

  lemma {:induction false} SameMeaning(glm: Glm, o: Obj, g: Glm, p: Obj)
    requires UniqueNames(glm) && Resolved(glm) && RefsOk(glm, o)
    requires UniqueNames(g) && Resolved(g) && RefsOk(g, p)
    requires SameSlots(glm, o, g, p)
    ensures Unfold(g, p) == Unfold(glm, o)
  {
    SameContent(glm, o, g, p);
    assert Unfold(g, p).parts == Unfold(glm, o).parts;
  }

  lemma {:induction false} UnfoldIgnoresName(glm: Glm, o: Obj, p: Obj)
    requires UniqueNames(glm) && Resolved(glm) && RefsOk(glm, o) && Content(o) == Content(p)
    ensures RefsOk(glm, p) && Unfold(glm, o) == Unfold(glm, p)
  {
    forall s | s in p.slots && IsRef(p.class_, s)
      ensures exists k :: Named(glm, k, p.slots[s]) && Targets(p.class_, s, glm[k].class_)
    {
      KeyExists(glm, o, s);
    }
    assert RefsOk(glm, p);
    assert forall s :: s in o.slots && IsRef(o.class_, s) ==> Referred(glm, o, s) == Referred(glm, p, s);
    SameMeaning(glm, p, glm, o);
  }

  lemma {:induction false} PartKept(glm: Glm, compName: Class, m: map<string, string>, o: Obj, s: Slot)
    requires UniqueNames(glm) && Renaming(glm, compName, m) && Resolved(glm) && RefsOk(glm, o)
    requires s in o.slots && IsRef(o.class_, s)
    requires UniqueNames(After(glm, compName, m)) && Resolved(After(glm, compName, m))
    requires RefsOk(After(glm, compName, m), RewireObj(compName, o, m))
    ensures Unfold(After(glm, compName, m), Referred(After(glm, compName, m), RewireObj(compName, o, m), s)) ==
            Unfold(glm, Referred(glm, o, s))
    decreases Level(o.class_), 0
  {
    var g := After(glm, compName, m);
    var k, l := ReferenceAfter(glm, compName, m, o, s);
    ReferredIs(glm, o, s, k);
    ReferredIs(g, RewireObj(compName, o, m), s, l);
    UnfoldIgnoresName(glm, glm[k], glm[l]);
    assert glm[l].class_ == glm[k].class_;
    UnfoldKept(glm, compName, m, glm[l]);
  }

  /** One call keeps the meaning of every object it keeps. */
  lemma {:induction false} UnfoldKept(glm: Glm, compName: Class, m: map<string, string>, o: Obj)
    requires UniqueNames(glm) && Renaming(glm, compName, m) && Resolved(glm) && RefsOk(glm, o)
    ensures UniqueNames(After(glm, compName, m)) && Resolved(After(glm, compName, m))
    ensures RefsOk(After(glm, compName, m), RewireObj(compName, o, m))
    ensures Unfold(After(glm, compName, m), RewireObj(compName, o, m)) == Unfold(glm, o)
    decreases Level(o.class_), 1
  {
    hide Unfold, Renaming, Referred, Resolved, UniqueNames, RefsOk, After;
    var g, o' := After(glm, compName, m), RewireObj(compName, o, m);
    AfterKeepsNames(glm, compName, m);
    AfterResolved(glm, compName, m);
    AfterRefsOk(glm, compName, m, o);
    forall s | s in o.slots && IsRef(o.class_, s)
      ensures Unfold(g, Referred(g, o', s)) == Unfold(glm, Referred(glm, o, s))
    {
      PartKept(glm, compName, m, o, s);
    }
    SameMeaning(glm, o, g, o');
  }

  // ------------------------------------------------------------------ six calls

  const ORDER: seq<Class> := [TransformerConfiguration, RegulatorConfiguration, LineSpacing,
                              OverheadLineConductor, UndergroundLineConductor, LineConfiguration]

  ghost predicate Canonical(glm: Glm, c: Class) {
    forall k, l :: k in glm && l in glm && k != l && glm[k].class_ == c && glm[l].class_ == c
                   ==> Content(glm[k]) != Content(glm[l])
  }

  /** A run of the six calls. */
  ghost predicate Sequence(gs: seq<Glm>, ms: seq<map<string, string>>) {
    && |gs| == 7 && |ms| == 6
    && forall i :: 0 <= i < 6 ==> Renaming(gs[i], ORDER[i], ms[i]) && gs[i + 1] == After(gs[i], ORDER[i], ms[i])
  }

  /** Objects of g are objects of glm that mean what they meant; only merged classes lose any. */
  ghost predicate Kept(glm: Glm, g: Glm)
    requires UniqueNames(glm) && Resolved(glm) && UniqueNames(g) && Resolved(g)
  {
    && (forall k :: k in g ==> KeptAt(glm, g, k))
    && (forall k :: k in glm && glm[k].class_ !in ORDER ==> k in g)
  }

  lemma {:induction false} OnlyMergedClassGoes(glm: Glm, compName: Class, m: map<string, string>, k: nat)
    requires UniqueNames(glm) && Renaming(glm, compName, m) && k in glm && glm[k].class_ != compName
    ensures k in After(glm, compName, m)
  {
    if IsMerged(glm[k], m) {
      var n := glm[k].name.value;
      assert MergesInto(glm, compName, n, m[n]);
      assert Named(glm, k, n);
    }
  }

  ghost predicate KeptAt(glm: Glm, g: Glm, k: nat)
    requires UniqueNames(glm) && Resolved(glm) && UniqueNames(g) && Resolved(g) && k in g
  {
    k in glm && g[k].name == glm[k].name && g[k].class_ == glm[k].class_ && Unfold(g, g[k]) == Unfold(glm, glm[k])
  }

  lemma {:induction false} CallKeepsAt(glm: Glm, compName: Class, m: map<string, string>, k: nat)
    requires UniqueNames(glm) && Resolved(glm) && Renaming(glm, compName, m) && k in After(glm, compName, m)
    requires UniqueNames(After(glm, compName, m)) && Resolved(After(glm, compName, m))
    ensures KeptAt(glm, After(glm, compName, m), k)
  {
    UnfoldKept(glm, compName, m, glm[k]);
  }

  lemma {:induction false} CallKeeps(glm: Glm, compName: Class, m: map<string, string>)
    requires UniqueNames(glm) && Resolved(glm) && Renaming(glm, compName, m) && compName in ORDER
    ensures UniqueNames(After(glm, compName, m)) && Resolved(After(glm, compName, m))
    ensures Kept(glm, After(glm, compName, m))
  {
    var g := After(glm, compName, m);
    AfterKeepsNames(glm, compName, m);
    AfterResolved(glm, compName, m);
    forall k | k in g
      ensures KeptAt(glm, g, k)
    {
      CallKeepsAt(glm, compName, m, k);
    }
    forall k | k in glm && glm[k].class_ !in ORDER
      ensures k in g
    {
      OnlyMergedClassGoes(glm, compName, m, k);
    }
  }

  lemma {:induction false} CallMakesCanonical(glm: Glm, compName: Class, m: map<string, string>)
    requires Renaming(glm, compName, m)
    ensures Canonical(After(glm, compName, m), compName)
  {
    CallLeavesAlone(glm, compName, m, compName);
    var g := After(glm, compName, m);
    forall k, l | k in g && l in g && k != l && g[k].class_ == compName && g[l].class_ == compName
      ensures Content(g[k]) != Content(g[l])
    {
      assert Stays(glm, compName, m, k) && Stays(glm, compName, m, l);
    }
  }

  /** A call does not touch objects that cannot refer to the merged class. */
  lemma {:induction false} CallLeavesAlone(glm: Glm, compName: Class, m: map<string, string>, c: Class)
    requires forall s :: !Targets(c, s, compName)
    ensures forall k :: k in After(glm, compName, m) && After(glm, compName, m)[k].class_ == c
                        ==> After(glm, compName, m)[k] == glm[k]
  {
    forall k | k in After(glm, compName, m) && glm[k].class_ == c
      ensures After(glm, compName, m)[k] == glm[k]
    {
      assert RewireObj(compName, glm[k], m).slots == glm[k].slots;
    }
  }

  lemma {:induction false} CallKeepsCanonical(glm: Glm, compName: Class, m: map<string, string>, c: Class)
    requires Canonical(glm, c) && forall s :: !Targets(c, s, compName)
    ensures Canonical(After(glm, compName, m), c)
  {
    CallLeavesAlone(glm, compName, m, c);
  }

  lemma {:induction false} SequenceKeeps(gs: seq<Glm>, ms: seq<map<string, string>>, j: nat)
    requires Sequence(gs, ms) && UniqueNames(gs[0]) && Resolved(gs[0]) && j <= 6
    ensures UniqueNames(gs[j]) && Resolved(gs[j]) && Kept(gs[0], gs[j])
    ensures forall i :: 0 <= i < j ==> Canonical(gs[j], ORDER[i])
  {
    hide Renaming, Canonical, Resolved, UniqueNames, Kept, After, Targets;
    if j == 0 {
      NothingLost(gs[0]);
    } else {
      var was, c, m := gs[j - 1], ORDER[j - 1], ms[j - 1];
      SequenceKeeps(gs, ms, j - 1);
      assert c in ORDER && Renaming(was, c, m) && gs[j] == After(was, c, m);
      CallKeeps(was, c, m);
      KeptTrans(gs[0], was, gs[j]);
      CallMakesCanonical(was, c, m);
      forall i | 0 <= i < j - 1
        ensures Canonical(gs[j], ORDER[i])
      {
        LaterCalls(i, j - 1);
        CallKeepsCanonical(was, c, m, ORDER[i]);
      }
    }
  }

  /** No class refers to one that is merged after it. */
  lemma {:induction false} LaterCalls(i: nat, j: nat)
    requires i < j < 6
    ensures forall s :: !Targets(ORDER[i], s, ORDER[j])
  {
  }

  lemma {:induction false} NothingLost(glm: Glm)
    requires UniqueNames(glm) && Resolved(glm)
    ensures Kept(glm, glm)
  {
    hide UniqueNames, Resolved, Unfold;
  }

  lemma {:induction false} KeptTrans(a: Glm, b: Glm, c: Glm)
    requires UniqueNames(a) && Resolved(a) && UniqueNames(b) && Resolved(b) && UniqueNames(c) && Resolved(c)
    requires Kept(a, b) && Kept(b, c)
    ensures Kept(a, c)
  {
    hide UniqueNames, Resolved, Unfold;
    forall k | k in c
      ensures KeptAt(a, c, k)
    {
      assert KeptAt(b, c, k) && KeptAt(a, b, k);
    }
    forall k | k in a && a[k].class_ !in ORDER
      ensures k in c
    {
      assert k in b && KeptAt(a, b, k);
    }
  }

  lemma {:induction false} LeavesDiffer(glm: Glm, k: nat, l: nat)
    requires UniqueNames(glm) && Resolved(glm) && k in glm && l in glm && k != l
    requires Level(glm[k].class_) == 0 && Canonical(glm, glm[k].class_)
    ensures Unfold(glm, glm[k]) != Unfold(glm, glm[l])
  {
    assert Unfold(glm, glm[k]).content.slots == glm[k].slots;
    if glm[l].class_ == glm[k].class_ {
      assert Unfold(glm, glm[l]).content.slots == glm[l].slots;
    }
  }

  lemma {:induction false} LineConfigurationsDiffer(glm: Glm, k: nat, l: nat)
    requires UniqueNames(glm) && Resolved(glm) && k in glm && l in glm && k != l
    requires glm[k].class_ == LineConfiguration && forall i :: 0 <= i < 6 ==> Canonical(glm, ORDER[i])
    ensures Unfold(glm, glm[k]) != Unfold(glm, glm[l])
  {
    var x, y := glm[k], glm[l];
    assert Canonical(glm, ORDER[5]);
    if Unfold(glm, x) == Unfold(glm, y) {
      assert y.class_ == LineConfiguration;
      forall s | s in x.slots
        ensures s in y.slots && x.slots[s] == y.slots[s]
      {
        if IsRef(x.class_, s) {
          assert s in Unfold(glm, x).parts && s in Unfold(glm, y).parts;
          SameReference(glm, x, y, s);
        } else {
          assert s in Unfold(glm, x).content.slots;
        }
      }
      forall s | s in y.slots
        ensures s in x.slots
      {
        if IsRef(x.class_, s) {
          assert s in Unfold(glm, y).parts;
        } else {
          assert s in Unfold(glm, y).content.slots;
        }
      }
      assert false;
    }
  }

  lemma {:induction false} SameReference(glm: Glm, x: Obj, y: Obj, s: Slot)
    requires UniqueNames(glm) && Resolved(glm) && RefsOk(glm, x) && RefsOk(glm, y)
    requires x.class_ == y.class_ == LineConfiguration && IsRef(x.class_, s) && s in x.slots && s in y.slots
    requires Unfold(glm, Referred(glm, x, s)) == Unfold(glm, Referred(glm, y, s))
    requires forall i :: 0 <= i < 6 ==> Canonical(glm, ORDER[i])
    ensures x.slots[s] == y.slots[s]
  {
    var p :| Named(glm, p, x.slots[s]) && glm[p] == Referred(glm, x, s);
    var q :| Named(glm, q, y.slots[s]) && glm[q] == Referred(glm, y, s);
    assert Canonical(glm, ORDER[2]) && Canonical(glm, ORDER[3]) && Canonical(glm, ORDER[4]);
    if p != q { LeavesDiffer(glm, p, q); }
  }

  lemma {:induction false} MergedDiffer(glm: Glm, k: nat, l: nat)
    requires UniqueNames(glm) && Resolved(glm) && k in glm && l in glm && k != l && glm[k].class_ in ORDER
    requires forall i :: 0 <= i < 6 ==> Canonical(glm, ORDER[i])
    ensures Unfold(glm, glm[k]) != Unfold(glm, glm[l])
  {
    hide Canonical, UniqueNames, Unfold;
    if glm[k].class_ == LineConfiguration {
      LineConfigurationsDiffer(glm, k, l);
    } else {
      var i :| 0 <= i < 6 && ORDER[i] == glm[k].class_;
      LeavesDiffer(glm, k, l);
    }
  }

  /** After the six calls no two objects of a merged class mean the same, and everything
      that is left means what it meant. */
  lemma {:induction false} SequenceIsCanonical(gs: seq<Glm>, ms: seq<map<string, string>>)
    requires Sequence(gs, ms) && UniqueNames(gs[0]) && Resolved(gs[0])
    ensures UniqueNames(gs[6]) && Resolved(gs[6]) && Kept(gs[0], gs[6])
    ensures forall k, l :: k in gs[6] && l in gs[6] && k != l && gs[6][k].class_ in ORDER
                           ==> Unfold(gs[6], gs[6][k]) != Unfold(gs[6], gs[6][l])
  {
    hide Renaming, Canonical, UniqueNames, Kept, After, Unfold;
    SequenceKeeps(gs, ms, 6);
    var g := gs[6];
    forall k, l | k in g && l in g && k != l && g[k].class_ in ORDER
      ensures Unfold(g, g[k]) != Unfold(g, g[l])
    {
      MergedDiffer(g, k, l);
    }
  }

  // ------------------------------------------------------------------ the calls made

  /** A call hands on what the next one needs. */
  ghost predicate Ready(glm: Glm) {
    UniqueNames(glm) && Resolved(glm) && forall k :: k in glm && glm[k].class_ in ORDER ==> glm[k].name.Some?
  }

  /** sorted(), as far as it matters: whatever the order of the contents, equal ones meet. */
  ghost predicate Sorts(sort: (Glm, Class) -> seq<Obj>) {
    forall glm: Glm, c: Class :: UniqueNames(glm) && (forall k :: k in glm && glm[k].class_ == c ==> glm[k].name.Some?)
                     ==> SortedList(glm, c, sort(glm, c))
  }

  method Call(feeder: Feeder, c: Class, sort: (Glm, Class) -> seq<Obj>) returns (m: map<string, string>)
    requires Ready(feeder.glm) && Sorts(sort) && c in ORDER
    modifies feeder
    ensures Renaming(old(feeder.glm), c, m) && feeder.glm == After(old(feeder.glm), c, m)
    ensures Ready(feeder.glm)
  {
    ghost var glm := feeder.glm;
    var list := sort(feeder.glm, c);
    m := feeder.DedupGlm(c, list);
    RunsAreRenaming(glm, c, list, m);
    CallKeeps(glm, c, m);
  }

  method SixCalls(feeder: Feeder, sort: (Glm, Class) -> seq<Obj>)
    requires Ready(feeder.glm) && Sorts(sort)
    modifies feeder
    ensures Ready(feeder.glm) && Kept(old(feeder.glm), feeder.glm)
    ensures forall i :: 0 <= i < 6 ==> Canonical(feeder.glm, ORDER[i])
    ensures forall k, l :: k in feeder.glm && l in feeder.glm && k != l && feeder.glm[k].class_ in ORDER
                           ==> Unfold(feeder.glm, feeder.glm[k]) != Unfold(feeder.glm, feeder.glm[l])
  {
    hide Ready, Sorts, Renaming, After, Canonical, Unfold, Kept;
    ghost var gs: seq<Glm>, ms: seq<map<string, string>> := [feeder.glm], [];
    var i := 0;
    while i < 6
      invariant 0 <= i <= 6 && |gs| == i + 1 && |ms| == i
      invariant gs[0] == old(feeder.glm) && gs[i] == feeder.glm && Ready(feeder.glm)
      invariant forall j :: 0 <= j < i ==> Renaming(gs[j], ORDER[j], ms[j]) && gs[j + 1] == After(gs[j], ORDER[j], ms[j])
    {
      var c := ORDER[i];
      var m := Call(feeder, c, sort);
      gs, ms := gs + [feeder.glm], ms + [m];
      i := i + 1;
    }
    ReadyParts(gs[0]);
    SequenceKeeps(gs, ms, 6);
    SequenceIsCanonical(gs, ms);
  }

  lemma {:induction false} ReadyParts(glm: Glm)
    requires Ready(glm)
    ensures UniqueNames(glm) && Resolved(glm)
  {
  }

  // ------------------------------------------------------------------ with the slots written out

  ghost predicate NamesOf(glm: Glm, n: string, classes: set<Class>) {
    exists k :: Named(glm, k, n) && glm[k].class_ in classes
  }

  /** What the source relies on: every slot that refers is there where it is read without asking,
      and names an object of a class it can name. */
  ghost predicate Wired(glm: Glm) {
    forall k :: k in glm ==> WiredAt(glm, glm[k])
  }

  ghost predicate WiredAt(glm: Glm, o: Obj) {
    && (o.class_ == Transformer ==> Configuration in o.slots && NamesOf(glm, o.slots[Configuration], {TransformerConfiguration}))
    && (o.class_ == Regulator ==> Configuration in o.slots && NamesOf(glm, o.slots[Configuration], {RegulatorConfiguration}))
    && (o.class_ == OverheadLine ==> Configuration in o.slots && NamesOf(glm, o.slots[Configuration], {LineConfiguration}))
    && (o.class_ == UndergroundLine ==> Configuration in o.slots && NamesOf(glm, o.slots[Configuration], {LineConfiguration}))
    && (o.class_ == LineConfiguration ==>
          && Spacing in o.slots && NamesOf(glm, o.slots[Spacing], {LineSpacing})
          && forall s :: s in {ConductorA, ConductorB, ConductorC, ConductorN} && s in o.slots ==>
               NamesOf(glm, o.slots[s], {OverheadLineConductor, UndergroundLineConductor}))
  }

  ghost predicate SameText(o: Obj, p: Obj) {
    o.class_ == p.class_ && o.slots == p.slots && o.rest == p.rest
  }

  /** n named an object before, and n' names one afterwards that is the same but for its name. */
  ghost predicate SameBehind(before: Glm, n: string, after: Glm, n': string) {
    exists j, l :: Named(before, j, n) && Named(after, l, n') && SameText(before[j], after[l])
  }

  /** p is the line configuration o, but for its name and for what merged spacings and conductors
      are called. */
  ghost predicate SameLineConfiguration(before: Glm, o: Obj, after: Glm, p: Obj) {
    && o.class_ == p.class_ == LineConfiguration && o.rest == p.rest && o.slots.Keys == p.slots.Keys
    && (Configuration in o.slots ==> p.slots[Configuration] == o.slots[Configuration])
    && forall s :: s in {Spacing, ConductorA, ConductorB, ConductorC, ConductorN} && s in o.slots ==>
         SameBehind(before, o.slots[s], after, p.slots[s])
  }

  ghost predicate SameLineBehind(before: Glm, n: string, after: Glm, n': string) {
    exists j, l :: Named(before, j, n) && Named(after, l, n') && SameLineConfiguration(before, before[j], after, after[l])
  }

  /** p is o as it was, but for what merged objects are called. */
  ghost predicate SameObject(before: Glm, o: Obj, after: Glm, p: Obj) {
    && p.name == o.name && p.class_ == o.class_ && p.rest == o.rest && p.slots.Keys == o.slots.Keys
    && (o.class_ in {Transformer, Regulator} && Configuration in o.slots ==>
          SameBehind(before, o.slots[Configuration], after, p.slots[Configuration]))
    && (o.class_ in {OverheadLine, UndergroundLine} && Configuration in o.slots ==>
          SameLineBehind(before, o.slots[Configuration], after, p.slots[Configuration]))
    && (o.class_ == LineConfiguration ==> SameLineConfiguration(before, o, after, p))
    && forall s :: s in o.slots ==>
         || o.class_ == LineConfiguration
         || (s == Configuration && o.class_ in {Transformer, Regulator, OverheadLine, UndergroundLine})
         || p.slots[s] == o.slots[s]
  }

  lemma {:induction false} WiredIffResolved(glm: Glm)
    ensures Wired(glm) <==> Resolved(glm)
  {
    forall k | k in glm
      ensures WiredAt(glm, glm[k]) <==>
              RefsOk(glm, glm[k]) && forall s :: IsMandatory(glm[k].class_, s) ==> s in glm[k].slots
    {
      WiredIffAt(glm, glm[k]);
    }
  }

  lemma {:induction false} WiredIffAt(glm: Glm, o: Obj)
    ensures WiredAt(glm, o) <==> RefsOk(glm, o) && forall s :: IsMandatory(o.class_, s) ==> s in o.slots
  {
    if WiredAt(glm, o) {
      forall s | s in o.slots && IsRef(o.class_, s)
        ensures exists k :: Named(glm, k, o.slots[s]) && Targets(o.class_, s, glm[k].class_)
      {
        SlotWired(glm, o, s);
      }
    }
    if RefsOk(glm, o) && forall s :: IsMandatory(o.class_, s) ==> s in o.slots {
      assert IsMandatory(o.class_, Configuration) ==> Configuration in o.slots;
      assert IsMandatory(o.class_, Spacing) ==> Spacing in o.slots;
      forall s | s in o.slots && IsRef(o.class_, s)
        ensures exists k :: Named(glm, k, o.slots[s]) && Targets(o.class_, s, glm[k].class_)
      {
      }
    }
  }

  lemma {:induction false} SlotWired(glm: Glm, o: Obj, s: Slot)
    requires WiredAt(glm, o) && s in o.slots && IsRef(o.class_, s)
    ensures exists k :: Named(glm, k, o.slots[s]) && Targets(o.class_, s, glm[k].class_)
  {
  }

  /** Two objects without references that unfold to the same are the same but for their names. */
  lemma {:induction false} LeavesSame(before: Glm, o: Obj, after: Glm, p: Obj)
    requires UniqueNames(before) && Resolved(before) && RefsOk(before, o)
    requires UniqueNames(after) && Resolved(after) && RefsOk(after, p)
    requires Level(o.class_) == 0 && Unfold(after, p) == Unfold(before, o)
    ensures SameText(o, p)
  {
    hide Resolved, UniqueNames, RefsOk;
    assert Unfold(before, o).content.class_ == o.class_ && Unfold(after, p).content.class_ == p.class_;
    assert Unfold(before, o).content.slots == o.slots;
    assert Unfold(after, p).content.slots == p.slots;
    assert Unfold(before, o).content.rest == o.rest && Unfold(after, p).content.rest == p.rest;
  }

  lemma {:induction false} UnfoldParts(before: Glm, o: Obj, after: Glm, p: Obj)
    requires UniqueNames(before) && Resolved(before) && RefsOk(before, o)
    requires UniqueNames(after) && Resolved(after) && RefsOk(after, p)
    requires Unfold(after, p) == Unfold(before, o)
    ensures SameSlots(before, o, after, p)
  {
    hide Resolved, UniqueNames, RefsOk, Referred;
    var m, n := Unfold(before, o), Unfold(after, p);
    assert m.content.class_ == o.class_ && n.content.class_ == p.class_ && m.content.rest == o.rest && n.content.rest == p.rest;
    forall s
      ensures s in o.slots <==> s in p.slots
    {
      assert s in o.slots <==> s in m.content.slots || s in m.parts;
      assert s in p.slots <==> s in n.content.slots || s in n.parts;
    }
    forall s | s in o.slots
      ensures if IsRef(o.class_, s) then Unfold(after, Referred(after, p, s)) == Unfold(before, Referred(before, o, s))
              else o.slots[s] == p.slots[s]
    {
      if IsRef(o.class_, s) {
        assert s in m.parts && s in n.parts && m.parts[s] == n.parts[s];
      } else {
        assert m.content.slots[s] == n.content.slots[s];
      }
    }
  }

  lemma {:induction false} LeafBehind(before: Glm, o: Obj, after: Glm, p: Obj, s: Slot)
    requires UniqueNames(before) && Resolved(before) && RefsOk(before, o)
    requires UniqueNames(after) && Resolved(after) && RefsOk(after, p)
    requires SameSlots(before, o, after, p) && s in o.slots && IsRef(o.class_, s)
    requires !(o.class_.OverheadLine? || o.class_.UndergroundLine?)
    ensures SameBehind(before, o.slots[s], after, p.slots[s])
  {
    hide Resolved, UniqueNames, RefsOk, Unfold, SameText;
    var q, r := Referred(before, o, s), Referred(after, p, s);
    LeavesSame(before, q, after, r);
    var j :| Named(before, j, o.slots[s]) && before[j] == q;
    var l :| Named(after, l, p.slots[s]) && after[l] == r;
    assert SameText(before[j], after[l]);
  }

  lemma {:induction false} LineConfigurationSame(before: Glm, o: Obj, after: Glm, p: Obj)
    requires UniqueNames(before) && Resolved(before) && RefsOk(before, o)
    requires UniqueNames(after) && Resolved(after) && RefsOk(after, p)
    requires SameSlots(before, o, after, p) && o.class_ == LineConfiguration
    ensures SameLineConfiguration(before, o, after, p)
  {
    hide Resolved, UniqueNames, RefsOk, Unfold, SameBehind;
    forall s | s in {Spacing, ConductorA, ConductorB, ConductorC, ConductorN} && s in o.slots
      ensures SameBehind(before, o.slots[s], after, p.slots[s])
    {
      LeafBehind(before, o, after, p, s);
    }
  }

  lemma {:induction false} LineBehind(before: Glm, o: Obj, after: Glm, p: Obj)
    requires UniqueNames(before) && Resolved(before) && RefsOk(before, o)
    requires UniqueNames(after) && Resolved(after) && RefsOk(after, p)
    requires SameSlots(before, o, after, p) && Configuration in o.slots && o.class_ in {OverheadLine, UndergroundLine}
    ensures SameLineBehind(before, o.slots[Configuration], after, p.slots[Configuration])
  {
    hide Resolved, UniqueNames, RefsOk, Unfold, SameSlots, SameLineConfiguration;
    SlotsMatch(before, o, after, p, Configuration);
    var q, r := Referred(before, o, Configuration), Referred(after, p, Configuration);
    UnfoldParts(before, q, after, r);
    LineConfigurationSame(before, q, after, r);
    var j :| Named(before, j, o.slots[Configuration]) && before[j] == q;
    var l :| Named(after, l, p.slots[Configuration]) && after[l] == r;
    assert SameLineConfiguration(before, before[j], after, after[l]);
  }

  lemma {:induction false} SlotsMatch(before: Glm, o: Obj, after: Glm, p: Obj, s: Slot)
    requires UniqueNames(before) && Resolved(before) && RefsOk(before, o)
    requires UniqueNames(after) && Resolved(after) && RefsOk(after, p)
    requires SameSlots(before, o, after, p) && s in o.slots && IsRef(o.class_, s)
    ensures p.class_ == o.class_ && s in p.slots && IsRef(p.class_, s)
    ensures Unfold(after, Referred(after, p, s)) == Unfold(before, Referred(before, o, s))
  {
    hide Resolved, UniqueNames, RefsOk, Unfold;
  }

  /** An object that is kept, in terms of its slots. */
  lemma {:induction false} KeptIsSame(before: Glm, after: Glm, k: nat)
    requires UniqueNames(before) && Resolved(before) && UniqueNames(after) && Resolved(after) && k in after
    requires KeptAt(before, after, k)
    ensures k in before && SameObject(before, before[k], after, after[k])
  {
    hide UniqueNames, RefsOk, Unfold, SameBehind, SameLineBehind, SameLineConfiguration;
    var o, p := before[k], after[k];
    UnfoldParts(before, o, after, p);
    if o.class_ in {Transformer, Regulator} && Configuration in o.slots { LeafBehind(before, o, after, p, Configuration); }
    if o.class_ in {OverheadLine, UndergroundLine} && Configuration in o.slots { LineBehind(before, o, after, p); }
    if o.class_ == LineConfiguration { LineConfigurationSame(before, o, after, p); }
  }

  /** The classes of which objects are merged. */
  predicate IsMergedClass(c: Class) {
    || c.TransformerConfiguration? || c.RegulatorConfiguration? || c.LineConfiguration?
    || c.LineSpacing? || c.OverheadLineConductor? || c.UndergroundLineConductor?
  }

  lemma MergedClasses()
    ensures forall c :: c in ORDER <==> IsMergedClass(c)
  {
    assert ORDER[0] in ORDER && ORDER[1] in ORDER && ORDER[2] in ORDER && ORDER[3] in ORDER && ORDER[4] in ORDER && ORDER[5] in ORDER;
  }

  /** Lines 1268-1274.  Every slot that refers names an object that is there, the same as before
      but for names and what it refers to in turn; objects of the merged classes differ in more
      than their names, and mean different things. */
  method DedupAll(feeder: Feeder, sort: (Glm, Class) -> seq<Obj>)
    requires UniqueNames(feeder.glm) && Wired(feeder.glm) && Sorts(sort)
    requires forall k :: k in feeder.glm && IsMergedClass(feeder.glm[k].class_) ==> feeder.glm[k].name.Some?
    modifies feeder
    ensures UniqueNames(feeder.glm) && Wired(feeder.glm)
    ensures forall k :: k in feeder.glm ==>
                        k in old(feeder.glm) && SameObject(old(feeder.glm), old(feeder.glm)[k], feeder.glm, feeder.glm[k])
    ensures forall k :: k in old(feeder.glm) && !IsMergedClass(old(feeder.glm)[k].class_) ==> k in feeder.glm
    ensures forall k, l :: k in feeder.glm && l in feeder.glm && k != l && IsMergedClass(feeder.glm[k].class_)
                           ==> !SameText(feeder.glm[k], feeder.glm[l])
    ensures Resolved(old(feeder.glm)) && Resolved(feeder.glm) && Kept(old(feeder.glm), feeder.glm)
    ensures forall k, l :: k in feeder.glm && l in feeder.glm && k != l && feeder.glm[k].class_ in ORDER
                           ==> Unfold(feeder.glm, feeder.glm[k]) != Unfold(feeder.glm, feeder.glm[l])
  {
    hide Wired, Resolved, UniqueNames, Unfold, Sorts, KeptAt, SameObject, SameText, Canonical;
    ghost var was := feeder.glm;
    WiredIffResolved(was);
    MergedClasses();
    SixCalls(feeder, sort);
    WiredIffResolved(feeder.glm);
    ghost var g := feeder.glm;
    forall k | k in g
      ensures k in was && SameObject(was, was[k], g, g[k])
    {
      KeptIsSame(was, g, k);
    }
    forall k, l | k in g && l in g && k != l && g[k].class_ in ORDER
      ensures !SameText(g[k], g[l])
    {
      TextsDiffer(g, k, l);
    }
  }

  lemma {:induction false} TextsDiffer(glm: Glm, k: nat, l: nat)
    requires k in glm && l in glm && k != l && glm[k].class_ in ORDER && forall i :: 0 <= i < 6 ==> Canonical(glm, ORDER[i])
    ensures !SameText(glm[k], glm[l])
  {
    var i :| 0 <= i < 6 && ORDER[i] == glm[k].class_;
    assert Canonical(glm, ORDER[i]);
  }
}
