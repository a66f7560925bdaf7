/** The template filter on a document in memory: elements with parents and children, pruned in
    place while their siblings are walked. */
module DomFilter {
  import opened Prelude
  import opened DomTree

  /** removeChild on a list of children. */
  function Minus<T(==)>(s: seq<T>, e: T): seq<T> {
    if s == [] then [] else if s[0] == e then s[1..] else [s[0]] + Minus(s[1..], e)
  }

  function IndexOf<T(==)>(s: seq<T>, e: T): (i: nat)
    requires e in s
    ensures i < |s| && s[i] == e
  {
    if s[0] == e then 0 else 1 + IndexOf(s[1..], e)
  }

  predicate Distinct<T(==)>(s: seq<T>) {
    forall i, j :: 0 <= i < j < |s| ==> s[i] != s[j]
  }

  /** Taking out or finding an element that occurs once. */
  lemma {:induction false} MiddleElement<T>(front: seq<T>, e: T, back: seq<T>)
    requires Distinct(front + [e] + back)
    ensures e !in front && e !in back && Distinct(front + back)
    ensures Minus(front + [e] + back, e) == front + back
    ensures IndexOf(front + [e] + back, e) == |front|
  {
    var s := front + [e] + back;
    forall i | 0 <= i < |front|
      ensures front[i] != e
    {
      assert s[i] == front[i] && s[|front|] == e;
    }
    forall j | 0 <= j < |back|
      ensures back[j] != e
    {
      assert s[|front| + 1 + j] == back[j] && s[|front|] == e;
    }
    forall i, j | 0 <= i < j < |front + back|
      ensures (front + back)[i] != (front + back)[j]
    {
      var i' := if i < |front| then i else i + 1;
      var j' := if j < |front| then j else j + 1;
      assert s[i'] == (front + back)[i] && s[j'] == (front + back)[j];
    }
    MinusMiddle(front, e, back);
  }

  lemma {:induction false} MinusMiddle<T>(front: seq<T>, e: T, back: seq<T>)
    requires e !in front
    ensures Minus(front + [e] + back, e) == front + back
    ensures IndexOf(front + [e] + back, e) == |front|
  {
    var s := front + [e] + back;
    if front == [] {
      assert s[0] == e && s[1..] == back;
    } else {
      assert s[0] == front[0] && s[1..] == front[1..] + [e] + back;
      MinusMiddle(front[1..], e, back);
    }
  }

  lemma {:induction false} FromHere<T>(front: seq<T>, s: seq<T>)
    requires s != []
    ensures front + s == front + [s[0]] + s[1..]
  {
  }

  lemma {:induction false} Regroup<T>(a: seq<T>, b: seq<T>, c: seq<T>)
    ensures a + (b + c) == (a + b) + c
  {
  }

  lemma {:induction false} FilteredFromHere(done: seq<Tree>, ts: seq<Tree>, removeInfo: bool)
    requires ts != []
    ensures done + FilteredKids(ts, removeInfo)
         == (if Checked(ts[0]) then done + [Filtered(ts[0], true, removeInfo)] else done) + FilteredKids(ts[1..], removeInfo)
  {
    hide Filtered, Checked, FilteredKids;
    FilteredKidsStep(ts, removeInfo);
    var rest := FilteredKids(ts[1..], removeInfo);
    if Checked(ts[0]) {
      Regroup(done, [Filtered(ts[0], true, removeInfo)], rest);
    } else {
      assert [] + rest == rest;
    }
  }

  lemma {:induction false} FilteredKidsStep(ts: seq<Tree>, removeInfo: bool)
    requires ts != []
    ensures FilteredKids(ts, removeInfo)
         == (if Checked(ts[0]) then [Filtered(ts[0], true, removeInfo)] else []) + FilteredKids(ts[1..], removeInfo)
  {
    hide Filtered, Checked;
  }

  lemma {:induction false} NoKidsLeft(done: seq<Tree>, removeInfo: bool)
    ensures done + FilteredKids([], removeInfo) == done
  {
  }

  lemma {:induction false} FilteredIs(t: Tree, removeUnchecked: bool, removeInfo: bool)
    ensures Filtered(t, removeUnchecked, removeInfo)
         == if removeUnchecked then Finish(Trimmed(t).(kids := FilteredKids(t.kids, removeInfo)), removeInfo) else Finish(t, removeInfo)
  {
    hide Finish, Trimmed, FilteredKids;
  }

  class Element {
    var tag: string
    var attributes: map<string, string>
    var info: Option<bool>
    var attrInfo: Option<map<string, bool>>
    var id: Option<int>
    var parent: Element?
    var children: seq<Element>
    ghost var Repr: set<Element>

    /** This element and everything below it form a tree. */
    ghost predicate Valid()
      reads this, Repr
      decreases Repr
    {
      && this in Repr
      && (forall c :: c in children ==>
            c in Repr && c.Repr <= Repr && this !in c.Repr && c.parent == this && c.Valid())
      && (forall c, d :: c in children && d in children && c != d ==> c.Repr !! d.Repr)
      && Distinct(children)
    }

    /** What it looks like. */
    ghost function AsTree(): Tree
      requires Valid()
      reads this, Repr
      decreases Repr, |children| + 1
    {
      Tree(tag, attributes, info, attrInfo, id, KidsFrom(0))
    }

    ghost function KidsFrom(i: nat): seq<Tree>
      requires Valid() && i <= |children|
      reads this, Repr
      decreases Repr, |children| - i
    {
      if i == |children| then [] else [children[i].AsTree()] + KidsFrom(i + 1)
    }

    lemma {:induction false} KidsAre(ts: seq<Tree>, i: nat)
      requires Valid() && i <= |children| && |ts| == |children|
      requires forall j :: 0 <= j < |children| ==> children[j].AsTree() == ts[j]
      ensures KidsFrom(i) == ts[i..]
      decreases |children| - i
    {
      if i < |children| { KidsAre(ts, i + 1); }
    }

    lemma {:induction false} KidAt(i: nat, j: nat)
      requires Valid() && i <= j < |children|
      ensures |KidsFrom(i)| == |children| - i && KidsFrom(i)[j - i] == children[j].AsTree()
      decreases j - i
    {
      KidsCount(i);
      if i < j { KidAt(i + 1, j); }
    }

    lemma {:induction false} KidsCount(i: nat)
      requires Valid() && i <= |children|
      ensures |KidsFrom(i)| == |children| - i
      decreases |children| - i
    {
      if i < |children| { KidsCount(i + 1); }
    }

    /** nextSiblingElement */
    function NextSibling(): Element?
      requires parent != null && this in parent.children
      reads this, parent
    {
      var i := IndexOf(parent.children, this);
      if i + 1 < |parent.children| then parent.children[i + 1] else null
    }

    constructor (tag: string)
      ensures Valid() && fresh(Repr) && AsTree() == Tree(tag, map[], None, None, None, []) && parent == null && children == []
    {
      this.tag := tag;
      attributes := map[];
      info := None;
      attrInfo := None;
      id := None;
      parent := null;
      children := [];
      Repr := {this};
    }

    /** Only this element's own fields have changed. */
    twostate lemma OnlyOwnFields()
      requires old(Valid()) && children == old(children) && Repr == old(Repr)
      requires forall e :: e in Repr && e != this ==> unchanged(e)
      ensures Valid() && KidsFrom(0) == old(KidsFrom(0))
    {
      assert forall c :: c in children ==> c.Valid() && c.AsTree() == old(c.AsTree());
      KidsUnchanged(0);
    }

    /** Lines 568-589: the attributes whose mark is unchecked go, and so do their marks. */
    method Trim()
      modifies this`attributes, this`attrInfo
      ensures attributes == old(if attrInfo.None? then attributes else attributes - Unchecked(attrInfo.value))
      ensures attrInfo == old(if attrInfo.None? then None else Some(attrInfo.value - Unchecked(attrInfo.value)))
    {
      if attrInfo.Some? {
        var jsonInfo := attrInfo.value;
        var jsonObj := jsonInfo;
        var uncheckedAttrList: seq<string> := [];
        var keys := jsonInfo.Keys;
        while keys != {}
          invariant keys <= jsonInfo.Keys
          invariant jsonObj == jsonInfo - (Unchecked(jsonInfo) - keys)
          invariant forall key :: key in uncheckedAttrList <==> key in Unchecked(jsonInfo) - keys
        {
          var key :| key in keys;
          if !jsonInfo[key] {
            jsonObj := jsonObj - {key};
            uncheckedAttrList := uncheckedAttrList + [key];
          }
          keys := keys - {key};
        }
        assert Unchecked(jsonInfo) - {} == Unchecked(jsonInfo);
        attrInfo := Some(jsonObj);
        ghost var was := attributes;
        var i := 0;
        while i < |uncheckedAttrList|
          invariant i <= |uncheckedAttrList|
          invariant attributes == was - Among(uncheckedAttrList[..i])
          invariant attrInfo == Some(jsonObj)
        {
          attributes := attributes - {uncheckedAttrList[i]};
          assert Among(uncheckedAttrList[..i + 1]) == Among(uncheckedAttrList[..i]) + {uncheckedAttrList[i]};
          i := i + 1;
        }
        assert uncheckedAttrList[..i] == uncheckedAttrList;
        assert Among(uncheckedAttrList) == Unchecked(jsonInfo);
      }
    }

    /** `node.parentNode().removeChild(node)` */
    method RemoveFromParent()
      requires parent != null ==> this in parent.children
      modifies this`parent, ParentOf(this)`children
      ensures parent == null
      ensures old(parent) != null ==> old(parent).children == Minus(old(parent.children), this)
    {
      if parent != null {
        parent.children := Minus(parent.children, this);
        parent := null;
      }
    }

    twostate lemma KidsUnchanged(i: nat)
      requires old(Valid()) && Valid() && children == old(children) && i <= |children|
      requires forall c :: c in children ==> c.AsTree() == old(c.AsTree())
      ensures KidsFrom(i) == old(KidsFrom(i))
      decreases |children| - i
    {
      if i < |children| { KidsUnchanged(i + 1); }
    }

    /** One turn of the sibling walk: the next sibling is read before the child may go. */
    method FilterChild(child: Element, ghost front: seq<Element>, ghost back: seq<Element>, removeInfo: bool)
      returns (siblingNode: Element?)
      requires Valid() && children == front + [child] + back
      modifies this`children, child.Repr
      ensures Valid() && Repr == old(Repr)
      ensures siblingNode == if back == [] then null else back[0]
      ensures children == if old(child.info) == Some(true) then front + [child] + back else front + back
      ensures old(child.Valid()) && (old(child.info) == Some(true) ==> child.Valid() && child.AsTree() == Filtered(old(child.AsTree()), true, removeInfo))
      ensures forall c :: c in front + back ==> old(c.Valid()) && c.Valid() && c.AsTree() == old(c.AsTree())
      decreases Repr, 0, 0
    {
      hide Filtered, AsTree, KidsFrom, Valid;
      SelfInside();
      ChildInside(child);
      siblingNode := SiblingOf(child, front, back);
      ChildrenTogether(front, child, back);
      child.Filter(true, removeInfo);
      OthersKept(child);
      StillValid(old(children));
    }

    /** What the children know of each other. */
    lemma {:induction false} ChildrenTogether(front: seq<Element>, child: Element, back: seq<Element>)
      requires Valid() && children == front + [child] + back
      ensures child in children && child.parent == this && Distinct(children) && Distinct(front + back)
      ensures Minus(children, child) == front + back
      ensures forall c :: c in front + back ==> c in children && c != child
    {
      hide AsTree, KidsFrom;
      MiddleElement(front, child, back);
      assert child in children;
    }

    /** Changes below one child do not reach the others. */
    twostate lemma OthersKept(child: Element)
      requires old(Valid()) && child in old(children)
      requires forall e :: e in old(Repr) && e !in old(child.Repr) && e != this ==> unchanged(e)
      ensures forall c :: c in old(children) && c != child ==>
                old(c.Valid()) && c.Valid() && c.Repr == old(c.Repr) && c.parent == this && c.AsTree() == old(c.AsTree())
    {
      hide AsTree, KidsFrom;
    }

    twostate lemma StillValid(was: seq<Element>)
      requires old(Valid()) && was == old(children) && Repr == old(Repr) && Distinct(children)
      requires forall c :: c in children ==> c in was && c.Valid() && c.Repr == old(c.Repr) && c.parent == this
      ensures Valid()
    {
      hide AsTree, KidsFrom;
    }

    /** Lines 590-597: every child. */
    method FilterChildren(removeInfo: bool)
      requires Valid()
      modifies this`children, Repr - {this}
      ensures Valid() && Repr == old(Repr)
      ensures KidsFrom(0) == FilteredKids(old(KidsFrom(0)), removeInfo)
      decreases Repr, 0, 1
    {
      hide Filtered, FilteredKids, Valid, AsTree, KidsFrom;
      ghost var ts := KidsFrom(0);
      ghost var kept: seq<Element>, done: seq<Tree>, rest, left := [], [], children, ts;
      KidsAtFirst(ts);
      assert [] + children == children && [] + FilteredKids(ts, removeInfo) == FilteredKids(ts, removeInfo);
      var childNode: Element? := if children == [] then null else children[0];
      while childNode != null
        invariant Valid() && Repr == old(Repr)
        invariant childNode == if rest == [] then null else rest[0]
        invariant children == kept + rest
        invariant |kept| == |done| && |rest| == |left|
        invariant forall j :: 0 <= j < |kept| ==> kept[j].Valid() && kept[j].AsTree() == done[j]
        invariant forall j :: 0 <= j < |rest| ==> rest[j].Valid() && rest[j].AsTree() == left[j]
        invariant FilteredKids(ts, removeInfo) == done + FilteredKids(left, removeInfo)
        decreases |rest|
      {
        var child: Element := childNode;
        ghost var back := rest[1..];
        FromHere(kept, rest);
        FilteredFromHere(done, left, removeInfo);
        ChildInside(child);
        childNode := FilterChild(child, kept, back, removeInfo);
        forall j | 0 <= j < |back|
          ensures back[j].Valid() && back[j].AsTree() == left[1..][j]
        {
          assert back[j] in kept + back && back[j] == rest[j + 1];
        }
        forall j | 0 <= j < |kept|
          ensures kept[j].Valid() && kept[j].AsTree() == done[j]
        {
          assert kept[j] in kept + back;
        }
        if Checked(left[0]) {
          kept, done := kept + [child], done + [Filtered(left[0], true, removeInfo)];
        }
        rest, left := back, left[1..];
      }
      assert kept + [] == kept;
      NoKidsLeft(done, removeInfo);
      KidsAre(done, 0);
      assert done[0..] == done;
    }

    lemma {:induction false} SelfInside()
      requires Valid()
      ensures this in Repr
    {
    }

    lemma {:induction false} ChildInside(c: Element)
      requires Valid() && c in children
      ensures c.Valid() && c.Repr <= Repr - {this} && c.Repr < Repr && c.AsTree().info == c.info
    {
    }

    lemma {:induction false} KidsAtFirst(ts: seq<Tree>)
      requires Valid() && ts == KidsFrom(0)
      ensures |ts| == |children| && forall j :: 0 <= j < |children| ==> children[j].Valid() && children[j].AsTree() == ts[j]
    {
      KidsCount(0);
      forall j | 0 <= j < |children|
        ensures children[j].Valid() && children[j].AsTree() == ts[j]
      {
        KidAt(0, j);
        ChildInside(children[j]);
      }
    }

    /** Filter. */
    method Filter(removeUnchecked: bool, removeInfo: bool)
      requires Valid()
      requires parent != null ==> this in parent.children && parent !in Repr
      modifies Repr, ParentOf(this)`children
      ensures Valid() && Repr == old(Repr)
      ensures removeUnchecked && old(info) != Some(true) ==>
                && AsTree() == Finish(old(AsTree()), removeInfo) && parent == null
                && (old(parent) != null ==> old(parent).children == Minus(old(parent.children), this))
      ensures !(removeUnchecked && old(info) != Some(true)) ==>
                && AsTree() == Filtered(old(AsTree()), removeUnchecked, removeInfo) && parent == old(parent)
                && (parent != null ==> parent.children == old(parent.children))
      decreases Repr, 1
    {
      hide Filtered, Valid, KidsFrom, FilteredKids;
      SelfInside();
      ghost var t := AsTree();
      if removeUnchecked && info != Some(true) {
        RemoveFromParent();
        OnlyOwnFields();
        assert AsTree() == t;
      } else if removeUnchecked {
        Trim();
        OnlyOwnFields();
        assert AsTree() == Trimmed(t);
        FilterChildren(removeInfo);
        assert AsTree() == Trimmed(t).(kids := FilteredKids(t.kids, removeInfo));
      }
      label before:
      if removeInfo {
        attrInfo := None;
        info := None;
        id := None;
        OnlyOwnFields@before();
      }
      FilteredIs(t, removeUnchecked, removeInfo);
    }

    /** FindElementNodeById. */
    method FindElementNodeById(id: int) returns (foundNode: Element?)
      requires Valid()
      ensures foundNode == null <==> FindById(AsTree(), id).None?
      ensures foundNode != null ==> foundNode in Repr && foundNode.Valid() && FindById(AsTree(), id) == Some(foundNode.AsTree())
      decreases Repr, 1
    {
      hide FindInKids, FindById, KidsFrom, Valid;
      SelfInside();
      FindByIdIs(AsTree(), id);
      if id == (if this.id.Some? then this.id.value else 0) {
        foundNode := this;
      } else {
        foundNode := FindInChildren(id);
      }
    }

    /** Lines 616-623: the walk over the children until one of them has it. */
    method FindInChildren(id: int) returns (foundNode: Element?)
      requires Valid()
      ensures foundNode == null <==> FindInKids(KidsFrom(0), id).None?
      ensures foundNode != null ==> foundNode in Repr && foundNode.Valid() && FindInKids(KidsFrom(0), id) == Some(foundNode.AsTree())
      decreases Repr, 0
    {
      hide FindInKids, FindById, KidsFrom, AsTree, Valid;
      foundNode := null;
      ghost var ts := KidsFrom(0);
      ghost var front: seq<Element>, rest, left := [], children, ts;
      KidsAtFirst(ts);
      var child: Element? := if children == [] then null else children[0];
      assert [] + children == children;
      while child != null
        invariant foundNode == null
        invariant child == if rest == [] then null else rest[0]
        invariant children == front + rest && |rest| == |left|
        invariant forall j :: 0 <= j < |rest| ==> rest[j].Valid() && rest[j].AsTree() == left[j]
        invariant FindInKids(ts, id) == FindInKids(left, id)
        decreases |rest|
      {
        FromHere(front, rest);
        FindInKidsStep(left, id);
        ChildInside(child);
        foundNode := child.FindElementNodeById(id);
        if foundNode != null {
          break;
        }
        child := SiblingOf(child, front, rest[1..]);
        front, rest, left := front + [rest[0]], rest[1..], left[1..];
      }
      FindInNone(id);
    }

    /** The next sibling, by position. */
    method SiblingOf(child: Element, ghost front: seq<Element>, ghost back: seq<Element>) returns (siblingNode: Element?)
      requires Valid() && children == front + [child] + back
      ensures siblingNode == if back == [] then null else back[0]
    {
      hide KidsFrom, AsTree;
      MiddleElement(front, child, back);
      assert child in children;
      siblingNode := child.NextSibling();
    }

    /** appendChild, for a node that is not below another. */
    method AppendChild(c: Element)
      requires Valid() && c.Valid() && c.Repr !! Repr
      modifies this`children, this`Repr, c`parent
      ensures Valid() && Repr == old(Repr + c.Repr) && children == old(children) + [c] && c.parent == this
      ensures c.Valid() && c.Repr == old(c.Repr) && c.AsTree() == old(c.AsTree())
      ensures KidsFrom(0) == old(KidsFrom(0)) + [old(c.AsTree())]
      ensures forall k :: k in old(children) ==> old(k.Valid()) && k.Valid() && k.AsTree() == old(k.AsTree())
    {
      hide AsTree, KidsFrom;
      ghost var ts := KidsFrom(0);
      KidsAtFirst(ts);
      children := children + [c];
      Repr := Repr + c.Repr;
      c.parent := this;
      assert c.Valid() && c.AsTree() == old(c.AsTree()) by { OnlyParent(c); }
      assert forall k :: k in old(children) ==> k.Valid() && k.AsTree() == old(k.AsTree());
      KidsAre(ts + [c.AsTree()], 0);
      assert (ts + [c.AsTree()])[0..] == ts + [c.AsTree()];
    }

    lemma {:induction false} TreeIs()
      requires Valid()
      ensures AsTree() == Tree(tag, attributes, info, attrInfo, id, KidsFrom(0))
    {
      hide KidsFrom;
    }

    lemma {:induction false} KidsStep(done: seq<Tree>, i: nat)
      requires Valid() && i < |children|
      ensures children[i].Valid() && children[i].Repr < Repr
      ensures done + KidsFrom(i) == done + [children[i].AsTree()] + KidsFrom(i + 1)
    {
      hide AsTree;
      assert children[i] in children;
      SelfInside();
    }

    lemma {:induction false} KidsEnd()
      requires Valid()
      ensures KidsFrom(|children|) == []
    {
    }

    /** cloneNode: a deep copy without a parent. */
    method CloneNode() returns (c: Element)
      requires Valid()
      ensures fresh(c.Repr) && c.Valid() && c.parent == null && c.AsTree() == AsTree()
      decreases Repr
    {
      hide AsTree, KidsFrom, Valid;
      c := new Element(tag);
      c.TreeIs();
      c.SelfInside();
      c.attributes, c.info, c.attrInfo, c.id := attributes, info, attrInfo, id;
      c.Leaf();
      var i := 0;
      ghost var done: seq<Tree> := [];
      assert [] + KidsFrom(0) == KidsFrom(0);
      while i < |children|
        invariant i <= |children|
        invariant Valid() && fresh(c.Repr) && c.Valid() && c.parent == null && c in c.Repr
        invariant c.tag == tag && c.attributes == attributes && c.info == info && c.attrInfo == attrInfo && c.id == id
        invariant c.KidsFrom(0) == done && KidsFrom(0) == done + KidsFrom(i)
      {
        KidsStep(done, i);
        var kid := children[i].CloneNode();
        kid.SelfInside();
        c.AppendChild(kid);
        done := done + [children[i].AsTree()];
        i := i + 1;
      }
      KidsEnd();
      assert done + [] == done;
      c.TreeIs();
      TreeIs();
    }

    lemma {:induction false} Leaf()
      requires this in Repr && children == []
      ensures Valid() && KidsFrom(0) == []
    {
    }

    twostate lemma OnlyParent(c: Element)
      requires old(c.Valid()) && c.children == old(c.children) && c.Repr == old(c.Repr)
      requires c.tag == old(c.tag) && c.attributes == old(c.attributes) && c.info == old(c.info)
      requires c.attrInfo == old(c.attrInfo) && c.id == old(c.id)
      requires forall e :: e in c.Repr && e != c ==> unchanged(e)
      ensures c.Valid() && c.AsTree() == old(c.AsTree())
    {
      c.OnlyOwnFields();
    }
  }

  lemma {:induction false} FindInKidsStep(kids: seq<Tree>, id: int)
    requires kids != []
    ensures FindInKids(kids, id) == if FindById(kids[0], id).Some? then FindById(kids[0], id) else FindInKids(kids[1..], id)
  {
    hide FindById;
  }

  lemma {:induction false} FindByIdIs(t: Tree, id: int)
    ensures FindById(t, id) == if id == IdOf(t) then Some(t) else FindInKids(t.kids, id)
  {
    hide FindInKids;
  }

  lemma {:induction false} FindInNone(id: int)
    ensures FindInKids([], id) == None
  {
  }

  function Among(keys: seq<string>): set<string> {
    set key | key in keys
  }

  function ParentOf(e: Element): set<Element>
    reads e
  {
    if e.parent == null then {} else {e.parent}
  }

  // ------------------------------------------------------------------ documents made by filtering

  /** A clone filtered before it has a parent. */
  method FilteredClone(node: Element, removeInfo: bool) returns (c: Element)
    requires node.Valid()
    ensures fresh(c.Repr) && c.Valid() && c.parent == null
    ensures c.AsTree() == FilteredRoot(node.AsTree(), true, removeInfo)
  {
    hide Filtered;
    c := node.CloneNode();
    c.Filter(true, removeInfo);
  }

  /** The i-th part of a document, filtered as a clone; nothing if there is no such part, for
      then the calls are made on a null node. */
  function PartOf(parts: seq<Tree>, i: nat, removeInfo: bool): seq<Tree> {
    if i < |parts| then [FilteredRoot(parts[i], true, removeInfo)] else []
  }

  method AppendPart(root: Element, docRoot: Element, i: nat, removeInfo: bool)
    requires root.Valid() && docRoot.Valid() && root.Repr !! docRoot.Repr
    modifies root.Repr
    ensures root.Valid() && fresh(root.Repr - old(root.Repr)) && root.parent == old(root.parent)
    ensures root.AsTree() == old(root.AsTree()).(kids := old(root.AsTree()).kids + PartOf(old(docRoot.KidsFrom(0)), i, removeInfo))
  {
    hide FilteredRoot, Element.AsTree, Element.KidsFrom, Element.Valid;
    root.SelfInside();
    root.TreeIs();
    docRoot.KidsAtFirst(docRoot.KidsFrom(0));
    if i < |docRoot.children| {
      var node := FilteredClone(docRoot.children[i], removeInfo);
      node.SelfInside();
      root.AppendChild(node);
      root.TreeIs();
    } else {
      assert root.AsTree().kids + [] == root.AsTree().kids;
    }
  }

  /** What MethodTemplateRequest and MethodTemplateResponse make of two parts of a template:
      a root with both, each filtered as a clone. */
  method TemplateParts(tag: string, templateRoot: Element, first: nat) returns (root: Element)
    requires templateRoot.Valid()
    ensures fresh(root.Repr) && root.Valid()
    ensures var parts := templateRoot.KidsFrom(0);
            root.AsTree() == Tree(tag, map[], None, None, None, PartOf(parts, first, false) + PartOf(parts, first + 1, false))
  {
    hide PartOf, Element.AsTree, Element.KidsFrom, Element.Valid;
    root := new Element(tag);
    ghost var parts := templateRoot.KidsFrom(0);
    AppendPart(root, templateRoot, first, false);
    AppendPart(root, templateRoot, first + 1, false);
    assert [] + PartOf(parts, first, false) == PartOf(parts, first, false);
  }

  method MethodTemplateRequest(templateRoot: Element) returns (root: Element)
    requires templateRoot.Valid()
    ensures fresh(root.Repr) && root.Valid()
    ensures var parts := templateRoot.KidsFrom(0);
            root.AsTree() == Tree("Request", map[], None, None, None,
                                  (if |parts| > 0 then [FilteredRoot(parts[0], true, false)] else [])
                                  + if |parts| > 1 then [FilteredRoot(parts[1], true, false)] else [])
  {
    hide FilteredRoot, Element.AsTree, Element.KidsFrom;
    root := TemplateParts("Request", templateRoot, 0);
  }

  method MethodTemplateResponse(templateRoot: Element) returns (root: Element)
    requires templateRoot.Valid()
    ensures fresh(root.Repr) && root.Valid()
    ensures var parts := templateRoot.KidsFrom(0);
            root.AsTree() == Tree("Response", map[], None, None, None,
                                  (if |parts| > 2 then [FilteredRoot(parts[2], true, false)] else [])
                                  + if |parts| > 3 then [FilteredRoot(parts[3], true, false)] else [])
  {
    hide FilteredRoot, Element.AsTree, Element.KidsFrom;
    root := TemplateParts("Response", templateRoot, 2);
  }

  /** Xml: every child is cloned and appended first, then filtered, so an unchecked one goes. */
  method Xml(docRoot: Element, doRemoveInfo: bool) returns (root: Element)
    requires docRoot.Valid()
    ensures fresh(root.Repr) && root.Valid()
    ensures root.AsTree() == Tree(docRoot.tag, map[], None, None, None, FilteredKids(docRoot.KidsFrom(0), doRemoveInfo))
  {
    hide Filtered, FilteredKids, Element.AsTree, Element.KidsFrom, Element.Valid;
    root := new Element(docRoot.tag);
    ghost var ts := docRoot.KidsFrom(0);
    docRoot.KidsAtFirst(ts);
    var i := 0;
    ghost var done: seq<Tree> := [];
    assert [] + FilteredKids(ts, doRemoveInfo) == FilteredKids(ts, doRemoveInfo);
    while i < |docRoot.children|
      invariant i <= |docRoot.children| == |ts|
      invariant fresh(root.Repr) && root.Valid()
      invariant root.AsTree() == Tree(docRoot.tag, map[], None, None, None, done)
      invariant FilteredKids(ts, doRemoveInfo) == done + FilteredKids(ts[i..], doRemoveInfo)
    {
      FilteredFromHere(done, ts[i..], doRemoveInfo);
      assert ts[i..][1..] == ts[i + 1..] && ts[i..][0] == ts[i];
      AppendFiltered(root, docRoot.children[i], doRemoveInfo);
      if Checked(ts[i]) {
        done := done + [Filtered(ts[i], true, doRemoveInfo)];
      }
      i := i + 1;
    }
    assert ts[i..] == [];
    NoKidsLeft(done, doRemoveInfo);
  }

  /** One turn of Xml. */
  method AppendFiltered(root: Element, docNode: Element, doRemoveInfo: bool)
    requires root.Valid() && docNode.Valid()
    modifies root.Repr
    ensures root.Valid() && fresh(root.Repr - old(root.Repr))
    ensures var t := old(docNode.AsTree());
            root.AsTree() == old(root.AsTree()).(kids := old(root.AsTree()).kids
                                                         + if Checked(t) then [Filtered(t, true, doRemoveInfo)] else [])
  {
    hide Filtered, Element.AsTree, Element.KidsFrom, Element.Valid;
    root.TreeIs();
    root.SelfInside();
    ghost var front, ts := root.children, root.KidsFrom(0);
    root.KidsAtFirst(ts);
    var node := docNode.CloneNode();
    node.SelfInside();
    node.TreeIs();
    ghost var t := node.AsTree();
    root.AppendChild(node);
    assert front + [node] + [] == front + [node] && front + [] == front;
    root.ChildInside(node);
    var next := root.FilterChild(node, front, [], doRemoveInfo);
    forall j | 0 <= j < |front|
      ensures front[j].AsTree() == ts[j]
    {
      assert front[j] in front + [];
    }
    ghost var kids := if Checked(t) then ts + [Filtered(t, true, doRemoveInfo)] else ts;
    root.KidsAre(kids, 0);
    assert kids[0..] == kids && ts + [] == ts;
    root.TreeIs();
  }

  function EnvelopeAttributes(): map<string, string> {
    map["xmlns:soap" := "http://schemas.xmlsoap.org/soap/envelope/",
        "xmlns:xsi" := "http://www.w3.org/2001/XMLSchema-instance",
        "xmlns:xsd" := "http://www.w3.org/2001/XMLSchema"]
  }

  function Plain(tag: string, kids: seq<Tree>): Tree {
    Tree(tag, map[], None, None, None, kids)
  }

  /** A SOAP message: an envelope around header and body, each holding the part of the document
      filtered as a clone. */
  method XmlSoap(docRoot: Element) returns (soapRoot: Element)
    requires docRoot.Valid()
    ensures fresh(soapRoot.Repr) && soapRoot.Valid()
    ensures var parts := docRoot.KidsFrom(0);
            soapRoot.AsTree() ==
            Tree("soap:Envelope",
                 map["xmlns:soap" := "http://schemas.xmlsoap.org/soap/envelope/",
                     "xmlns:xsi" := "http://www.w3.org/2001/XMLSchema-instance",
                     "xmlns:xsd" := "http://www.w3.org/2001/XMLSchema"],
                 None, None, None,
                 [Tree("soap:Header", map[], None, None, None, if |parts| > 0 then [FilteredRoot(parts[0], true, true)] else []),
                  Tree("soap:Body", map[], None, None, None, if |parts| > 1 then [FilteredRoot(parts[1], true, true)] else [])])
  {
    hide FilteredRoot, Element.AsTree, Element.KidsFrom, Element.Valid;
    soapRoot := new Element("soap:Envelope");
    soapRoot.TreeIs();
    soapRoot.SelfInside();
    soapRoot.attributes := EnvelopeAttributes();
    soapRoot.Leaf();
    var header := Wrapped("soap:Header", docRoot, 0);
    header.SelfInside();
    soapRoot.AppendChild(header);
    var body := Wrapped("soap:Body", docRoot, 1);
    body.SelfInside();
    soapRoot.SelfInside();
    soapRoot.AppendChild(body);
    soapRoot.TreeIs();
  }

  /** `soap:Header` or `soap:Body` with its contents. */
  method Wrapped(tag: string, docRoot: Element, i: nat) returns (node: Element)
    requires docRoot.Valid()
    ensures fresh(node.Repr) && node.Valid() && node.parent == null
    ensures node.AsTree() == Plain(tag, PartOf(docRoot.KidsFrom(0), i, true))
  {
    hide PartOf, Element.AsTree, Element.KidsFrom, Element.Valid;
    node := new Element(tag);
    AppendPart(node, docRoot, i, true);
    ghost var part := PartOf(docRoot.KidsFrom(0), i, true);
    assert [] + part == part;
  }

  /** A message made from a filtered template is the message made from the template itself,
      checked or not. */
  lemma {:induction false} MessageFromTemplate(part: Tree)
    ensures FilteredRoot(FilteredRoot(part, true, false), true, true) == FilteredRoot(part, true, true)
  {
    LaterFilterAbsorbs(part, true);
    TrimmedApart(part, []);
  }
}
