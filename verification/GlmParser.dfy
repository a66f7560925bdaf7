/** The GLM parser: a stack machine over tokens that builds nested dicts keyed by guids. */
module GlmParser {
  import opened Prelude
  import opened GlmLexer

  /** A Python dict of the tree: string keys hold strings, integer keys hold dicts. */
  datatype Dict = Dict(attrs: map<string, string>, kids: map<nat, Dict>)

  const EMPTY := Dict(map[], map[])

  function Put(d: Dict, key: string, value: string): Dict {
    d.(attrs := d.attrs[key := value])
  }

  function PutKid(d: Dict, guid: nat, kid: Dict): Dict {
    d.(kids := d.kids[guid := kid])
  }

  // ------------------------------------------------------------------ the current leaf

  predicate IsPath(d: Dict, path: seq<nat>) {
    path == [] || (path[0] in d.kids && IsPath(d.kids[path[0]], path[1..]))
  }

  function GetAt(d: Dict, path: seq<nat>): Dict
    requires IsPath(d, path)
  {
    if path == [] then d else GetAt(d.kids[path[0]], path[1..])
  }

  function SetAt(d: Dict, path: seq<nat>, leaf: Dict): (r: Dict)
    requires IsPath(d, path)
    ensures IsPath(r, path)
  {
    if path == [] then leaf else PutKid(d, path[0], SetAt(d.kids[path[0]], path[1..], leaf))
  }

  lemma {:induction false} GetAfterSet(d: Dict, path: seq<nat>, leaf: Dict)
    requires IsPath(d, path)
    ensures GetAt(SetAt(d, path, leaf), path) == leaf
  {
    if path != [] { GetAfterSet(d.kids[path[0]], path[1..], leaf); }
  }

  lemma {:induction false} SetAfterSet(d: Dict, path: seq<nat>, leaf: Dict, leaf': Dict)
    requires IsPath(d, path)
    ensures SetAt(SetAt(d, path, leaf), path, leaf') == SetAt(d, path, leaf')
  {
    if path != [] { SetAfterSet(d.kids[path[0]], path[1..], leaf, leaf'); }
  }

  lemma {:induction false} SetBelow(d: Dict, path: seq<nat>, g: nat, leaf: Dict)
    requires IsPath(d, path) && g in GetAt(d, path).kids
    ensures IsPath(d, path + [g]) && GetAt(d, path + [g]) == GetAt(d, path).kids[g]
    ensures SetAt(d, path + [g], leaf) == SetAt(d, path, PutKid(GetAt(d, path), g, leaf))
  {
    if path == [] {
      assert path + [g] == [g] && [g][1..] == [];
    } else {
      assert (path + [g])[0] == path[0] && (path + [g])[1..] == path[1..] + [g];
      SetBelow(d.kids[path[0]], path[1..], g, leaf);
    }
  }

  // ------------------------------------------------------------------ one statement

  /** The parser between two statements. */
  datatype State = State(tokens: seq<Token>, tree: Dict, guid: nat, stack: seq<nat>)

  /** The open blocks are there, under guids already given out. */
  predicate Valid(st: State) {
    IsPath(st.tree, st.stack) && forall i :: 0 <= i < |st.stack| ==> st.stack[i] < st.guid
  }

  /** A full token: words up to and including a brace or semicolon. */
  datatype Statement = Statement(words: seq<string>, end: Token, rest: seq<Token>)

  /** None where popping runs out of tokens. */
  function TakeStatement(ts: seq<Token>): (r: Option<Statement>)
    ensures r.Some? ==> |r.value.rest| < |ts| && !r.value.end.Word?
  {
    if ts == [] then None
    else if !ts[0].Word? then Some(Statement([], ts[0], ts[1..]))
    else match TakeStatement(ts[1..])
      case None => None
      case Some(s) => Some(s.(words := [ts[0].text] + s.words))
  }

  /** The tokens up to the next closing brace, and what comes after it. */
  function TakeToClose(ts: seq<Token>): (r: Option<(seq<Token>, seq<Token>)>)
    ensures r.Some? ==> |r.value.1| < |ts|
  {
    if ts == [] then None
    else if ts[0].Close? then Some(([], ts[1..]))
    else match TakeToClose(ts[1..])
      case None => None
      case Some((more, rest)) => Some(([ts[0]] + more, rest))
  }

  /** listToString: the words between the first and the terminator; reduce fails on none. */
  function ListToString(words: seq<string>): Result<string> {
    if |words| < 2 then Failure else Success(Join(words[1..]))
  }

  function Texts(ts: seq<Token>): seq<string> {
    seq(|ts|, i requires 0 <= i < |ts| => Text(ts[i]))
  }

  /** `' '.join(fullToken[3:-2])` */
  function CronOf(fullToken: seq<string>): string {
    if |fullToken| < 5 then "" else Join(fullToken[3..|fullToken| - 2])
  }

  function ScheduleDict(fullToken: seq<string>): Dict
    requires |fullToken| >= 2
  {
    Dict(map["object" := "schedule", "name" := fullToken[1], "cron" := CronOf(fullToken)], map[])
  }

  /** currentLeafAdd for a string. */
  function AddAttr(st: State, key: string, value: string): (r: State)
    requires Valid(st)
    ensures Valid(r)
  {
    st.(tree := SetAt(st.tree, st.stack, Put(GetAt(st.tree, st.stack), key, value)))
  }

  /** An opening brace: a new dict under the next guid becomes the current leaf. */
  function OpenBlock(st: State): (r: State)
    requires Valid(st)
    ensures Valid(r) && GetAt(r.tree, r.stack) == EMPTY
  {
    var leaf := PutKid(GetAt(st.tree, st.stack), st.guid, EMPTY);
    var tree := SetAt(st.tree, st.stack, leaf);
    GetAfterSet(st.tree, st.stack, leaf);
    SetBelow(tree, st.stack, st.guid, EMPTY);
    st.(tree := tree, stack := st.stack + [st.guid], guid := st.guid + 1)
  }

  /** A closing brace; popping an empty stack fails. */
  function CloseBlock(st: State): (r: Result<State>)
    requires Valid(st)
    ensures r.Success? ==> Valid(r.value)
  {
    if st.stack == [] then Failure
    else
      PopPath(st.tree, st.stack);
      Success(st.(stack := st.stack[..|st.stack| - 1]))
  }

  /** A top-level item that is finished at once. */
  function AddItem(st: State, item: Dict): (r: State)
    requires Valid(st)
    ensures Valid(r)
  {
    st.(tree := PutKid(st.tree, st.guid, item), guid := st.guid + 1)
  }

  /** What is done with a full token, by its terminator. */
  function Process(st: State, words: seq<string>, end: Token): (r: Result<State>)
    requires Valid(st)
    ensures r.Success? ==> Valid(r.value) && |r.value.tokens| <= |st.tokens|
  {
    if end.Semi? then
      if words == [] then Success(st)
      else
        var value :- ListToString(words);
        if st.stack == [] then Success(AddItem(st, Dict(map["omftype" := words[0], "argument" := value], map[])))
        else Success(AddAttr(st, words[0], value))
    else if end.Close? then
      if words == [] then CloseBlock(st)
      else
        var value :- ListToString(words);
        CloseBlock(AddAttr(st, words[0], value))
    else if words != [] && words[0] == "schedule" then
      var taken := TakeToClose(st.tokens);
      if taken.None? then Failure
      else Success(AddItem(st.(tokens := taken.value.1),
                           ScheduleDict(words + ["{"] + Texts(taken.value.0) + ["}"])))
    else
      var inner := OpenBlock(st);
      if words == [] then Success(inner)
      else if |words| < 3 then Success(AddAttr(inner, words[0], words[|words| - 1]))
      else Success(AddAttr(inner, "omfEmbeddedConfigObject", Join(words)))
  }

  function Step(st: State): (r: Result<State>)
    requires Valid(st)
    ensures r.Success? ==> Valid(r.value) && |r.value.tokens| < |st.tokens|
  {
    match TakeStatement(st.tokens)
    case None => Failure
    case Some(s) => Process(st.(tokens := s.rest), s.words, s.end)
  }

  /** Statement after statement until the tokens are used up. */
  function Run(st: State): (r: Result<State>)
    requires Valid(st)
    ensures r.Success? ==> Valid(r.value)
    decreases |st.tokens|
  {
    if st.tokens == [] then Success(st)
    else
      var next :- Step(st);
      Run(next)
  }

  function Start(tokens: seq<Token>): State {
    State(tokens, EMPTY, 0, [])
  }

  /** _parseTokenList: the tree, or Failure where Python raises. */
  function Parse(tokens: seq<Token>): Result<Dict> {
    var st :- Run(Start(tokens));
    Success(st.tree)
  }

  lemma {:induction false} PopPath(d: Dict, path: seq<nat>)
    requires IsPath(d, path) && path != []
    ensures IsPath(d, path[..|path| - 1])
  {
    if |path| > 1 {
      PopPath(d.kids[path[0]], path[1..]);
      assert path[..|path| - 1][1..] == path[1..][..|path| - 2];
    }
  }

  lemma {:induction false} RunStep(st: State)
    requires Valid(st) && st.tokens != []
    ensures Run(st) == if Step(st).Failure? then Failure else Run(Step(st).value)
  {
    hide Step;
  }

  // ------------------------------------------------------------------ the loop of the source

  /** Lines 279-282: popping until the token is full. */
  method PopStatement(tokens: seq<Token>) returns (r: Option<Statement>)
    ensures r == TakeStatement(tokens)
  {
    var tokenList := tokens;
    var words: seq<string> := [];
    while tokenList != [] && tokenList[0].Word?
      invariant TakeStatement(tokens).Some? <==> TakeStatement(tokenList).Some?
      invariant TakeStatement(tokens).Some? ==>
                  TakeStatement(tokens).value.words == words + TakeStatement(tokenList).value.words
                  && TakeStatement(tokens).value.end == TakeStatement(tokenList).value.end
                  && TakeStatement(tokens).value.rest == TakeStatement(tokenList).value.rest
      decreases |tokenList|
    {
      words, tokenList := words + [tokenList[0].text], tokenList[1..];
    }
    if tokenList == [] {
      return None;
    }
    assert words + [] == words;
    r := Some(Statement(words, tokenList[0], tokenList[1..]));
  }

  /** Lines 259-314. */
  method ParseTokenList(tokens: seq<Token>) returns (r: Result<Dict>)
    ensures r == Parse(tokens)
  {
    hide Run;
    var tokenList, tree, guid: nat, guidStack: seq<nat> := tokens, EMPTY, 0, [];
    while tokenList != []
      invariant Valid(State(tokenList, tree, guid, guidStack))
      invariant Run(Start(tokens)) == Run(State(tokenList, tree, guid, guidStack))
      decreases |tokenList|
    {
      ghost var st := State(tokenList, tree, guid, guidStack);
      RunStep(st);
      var full := PopStatement(tokenList);
      if full.None? {
        return Failure;
      }
      var Statement(words, end, rest) := full.value;
      tokenList := rest;
      if end.Semi? {
        if guidStack == [] && words != [] {
          if |words| < 2 { return Failure; }
          tree := PutKid(tree, guid, Dict(map["omftype" := words[0], "argument" := Join(words[1..])], map[]));
          guid := guid + 1;
        } else if words != [] {
          if |words| < 2 { return Failure; }
          tree := SetAt(tree, guidStack, Put(GetAt(tree, guidStack), words[0], Join(words[1..])));
        }
      } else if end.Close? {
        if words != [] {
          if |words| < 2 { return Failure; }
          tree := SetAt(tree, guidStack, Put(GetAt(tree, guidStack), words[0], Join(words[1..])));
        }
        if guidStack == [] { return Failure; }
        guidStack := guidStack[..|guidStack| - 1];
      } else if words != [] && words[0] == "schedule" {
        var taken := TakeToClose(tokenList);
        if taken.None? { return Failure; }
        tree := PutKid(tree, guid, ScheduleDict(words + ["{"] + Texts(taken.value.0) + ["}"]));
        tokenList := taken.value.1;
        guid := guid + 1;
      } else {
        ghost var inner := OpenBlock(st.(tokens := rest));
        tree := SetAt(tree, guidStack, PutKid(GetAt(tree, guidStack), guid, EMPTY));
        guidStack := guidStack + [guid];
        guid := guid + 1;
        if words != [] {
          if |words| < 3 {
            tree := SetAt(tree, guidStack, Put(GetAt(tree, guidStack), words[0], words[|words| - 1]));
          } else {
            var embedded := words[0] + " " + Join(words[1..]);
            tree := SetAt(tree, guidStack, Put(GetAt(tree, guidStack), "omfEmbeddedConfigObject", embedded));
          }
        }
      }
      assert Process(st.(tokens := rest), words, end) == Success(State(tokenList, tree, guid, guidStack));
    }
    RunEnds(State([], tree, guid, guidStack));
    r := Success(tree);
  }

  lemma {:induction false} RunEnds(st: State)
    requires Valid(st) && st.tokens == []
    ensures Run(st) == Success(st)
  {
  }

  // ------------------------------------------------------------------ guids

  /** All guids below a dict, on every level. */
  ghost function Guids(d: Dict): set<nat> {
    d.kids.Keys + set g, x | g in d.kids && x in Guids(d.kids[g]) :: x
  }

  /** No guid is used twice anywhere below d. */
  ghost predicate UniqueGuids(d: Dict) {
    && (forall g :: g in d.kids ==> UniqueGuids(d.kids[g]))
    && (forall g, h :: g in d.kids && h in d.kids ==> g !in Guids(d.kids[h]))
    && (forall g, h :: g in d.kids && h in d.kids && g != h ==> Guids(d.kids[g]) !! Guids(d.kids[h]))
  }

  lemma {:induction false} SetAtGuids(d: Dict, path: seq<nat>, leaf: Dict, more: set<nat>)
    requires IsPath(d, path) && UniqueGuids(d) && UniqueGuids(leaf)
    requires Guids(leaf) == Guids(GetAt(d, path)) + more && more !! Guids(d)
    ensures UniqueGuids(SetAt(d, path, leaf)) && Guids(SetAt(d, path, leaf)) == Guids(d) + more
  {
    if path != [] {
      var k := path[0];
      var c := d.kids[k];
      assert Guids(c) <= Guids(d);
      SetAtGuids(c, path[1..], leaf, more);
      var c' := SetAt(c, path[1..], leaf);
      PutKidGuids(d, k, c', more);
    }
  }

  lemma {:induction false} KidGuids(d: Dict, g: nat)
    requires g in d.kids
    ensures g in Guids(d) && Guids(d.kids[g]) <= Guids(d)
  {
  }

  lemma {:induction false} GuidOrigin(d: Dict, x: nat) returns (g: nat)
    requires x in Guids(d)
    ensures g in d.kids && (x == g || x in Guids(d.kids[g]))
  {
    if x in d.kids { g := x; } else { g :| g in d.kids && x in Guids(d.kids[g]); }
  }

  /** The guids after one entry has been set. */
  lemma {:induction false} PutKidSet(d: Dict, k: nat, c: Dict)
    ensures Guids(PutKid(d, k, c)) <= Guids(d) + {k} + Guids(c)
    ensures {k} + Guids(c) <= Guids(PutKid(d, k, c))
    ensures k !in d.kids || Guids(d.kids[k]) <= Guids(c) ==> Guids(d) <= Guids(PutKid(d, k, c))
  {
    var e := PutKid(d, k, c);
    KidGuids(e, k);
    forall x | x in Guids(e)
      ensures x in Guids(d) + {k} + Guids(c)
    {
      var g := GuidOrigin(e, x);
      if g != k { KidGuids(d, g); }
    }
    forall x | x in Guids(d) && (k !in d.kids || Guids(d.kids[k]) <= Guids(c))
      ensures x in Guids(e)
    {
      var g := GuidOrigin(d, x);
      KidGuids(e, g);
    }
  }

  /** c takes the place of what d has under k, with the guids in more added. */
  ghost predicate Grows(d: Dict, k: nat, c: Dict, more: set<nat>) {
    && UniqueGuids(d) && UniqueGuids(c) && more !! Guids(d)
    && if k in d.kids then Guids(c) == Guids(d.kids[k]) + more else Guids(c) == {} && k in more
  }

  lemma {:induction false} PutKidPair(d: Dict, k: nat, c: Dict, more: set<nat>, g: nat, h: nat)
    requires Grows(d, k, c, more) && g in PutKid(d, k, c).kids && h in PutKid(d, k, c).kids
    ensures var e := PutKid(d, k, c);
            g !in Guids(e.kids[h]) && (g != h ==> Guids(e.kids[g]) !! Guids(e.kids[h]))
  {
    if g in d.kids { KidGuids(d, g); }
    if h in d.kids { KidGuids(d, h); }
  }

  lemma {:induction false} PutKidUnique(d: Dict, k: nat, c: Dict, more: set<nat>)
    requires Grows(d, k, c, more)
    ensures UniqueGuids(PutKid(d, k, c))
  {
    var e := PutKid(d, k, c);
    forall g, h | g in e.kids && h in e.kids
      ensures g !in Guids(e.kids[h]) && (g != h ==> Guids(e.kids[g]) !! Guids(e.kids[h]))
    {
      PutKidPair(d, k, c, more, g, h);
    }
  }

  lemma {:induction false} PutKidGuids(d: Dict, k: nat, c: Dict, more: set<nat>)
    requires UniqueGuids(d) && k in d.kids && UniqueGuids(c) && Guids(c) == Guids(d.kids[k]) + more && more !! Guids(d)
    ensures UniqueGuids(PutKid(d, k, c)) && Guids(PutKid(d, k, c)) == Guids(d) + more
  {
    PutKidSet(d, k, c);
    PutKidUnique(d, k, c, more);
    KidGuids(d, k);
  }

  lemma {:induction false} AddKidGuids(d: Dict, g: nat, kid: Dict)
    requires UniqueGuids(d) && g !in Guids(d) && kid.kids == map[]
    ensures UniqueGuids(PutKid(d, g, kid)) && Guids(PutKid(d, g, kid)) == Guids(d) + {g}
  {
    assert Guids(kid) == {};
    PutKidSet(d, g, kid);
    PutKidUnique(d, g, kid, {g});
  }

  /** 0, ..., n - 1 */
  function FirstGuids(n: nat): (r: set<nat>)
    ensures forall g: nat :: g in r <==> g < n
  {
    if n == 0 then {} else FirstGuids(n - 1) + {n - 1}
  }

  ghost predicate GuidsGivenOut(st: State) {
    UniqueGuids(st.tree) && Guids(st.tree) == FirstGuids(st.guid)
  }

  lemma {:induction false} AddAttrGuids(st: State, key: string, value: string)
    requires Valid(st) && GuidsGivenOut(st)
    ensures GuidsGivenOut(AddAttr(st, key, value))
  {
    var leaf := GetAt(st.tree, st.stack);
    GetAtUnique(st.tree, st.stack);
    SetAtGuids(st.tree, st.stack, Put(leaf, key, value), {});
  }

  lemma {:induction false} GetAtUnique(d: Dict, path: seq<nat>)
    requires IsPath(d, path) && UniqueGuids(d)
    ensures UniqueGuids(GetAt(d, path)) && Guids(GetAt(d, path)) <= Guids(d)
  {
    if path != [] { GetAtUnique(d.kids[path[0]], path[1..]); }
  }

  lemma {:induction false} NewKidGuids(d: Dict, path: seq<nat>, g: nat)
    requires IsPath(d, path) && UniqueGuids(d) && g !in Guids(d)
    ensures var r := SetAt(d, path, PutKid(GetAt(d, path), g, EMPTY));
            UniqueGuids(r) && Guids(r) == Guids(d) + {g}
  {
    GetAtUnique(d, path);
    AddKidGuids(GetAt(d, path), g, EMPTY);
    SetAtGuids(d, path, PutKid(GetAt(d, path), g, EMPTY), {g});
  }

  lemma {:induction false} OpenBlockGuids(st: State)
    requires Valid(st) && GuidsGivenOut(st)
    ensures GuidsGivenOut(OpenBlock(st))
  {
    NewKidGuids(st.tree, st.stack, st.guid);
    assert FirstGuids(st.guid + 1) == FirstGuids(st.guid) + {st.guid};
  }

  lemma {:induction false} AddItemGuids(st: State, item: Dict)
    requires Valid(st) && GuidsGivenOut(st) && item.kids == map[]
    ensures GuidsGivenOut(AddItem(st, item))
  {
    AddKidGuids(st.tree, st.guid, item);
  }

  lemma {:induction false} ProcessGuids(st: State, words: seq<string>, end: Token)
    requires Valid(st) && GuidsGivenOut(st) && Process(st, words, end).Success?
    ensures GuidsGivenOut(Process(st, words, end).value)
  {
    if end.Semi? || end.Close? {
      if words != [] {
        AddAttrGuids(st, words[0], Join(words[1..]));
        AddItemGuids(st, Dict(map["omftype" := words[0], "argument" := Join(words[1..])], map[]));
      }
    } else if words != [] && words[0] == "schedule" {
      var taken := TakeToClose(st.tokens).value;
      AddItemGuids(st.(tokens := taken.1), ScheduleDict(words + ["{"] + Texts(taken.0) + ["}"]));
    } else {
      OpenBlockGuids(st);
      if words != [] {
        AddAttrGuids(OpenBlock(st), words[0], words[|words| - 1]);
        AddAttrGuids(OpenBlock(st), "omfEmbeddedConfigObject", Join(words));
      }
    }
  }

  lemma {:induction false} StepGuids(st: State)
    requires Valid(st) && GuidsGivenOut(st) && Step(st).Success?
    ensures GuidsGivenOut(Step(st).value)
  {
    var s := TakeStatement(st.tokens).value;
    ProcessGuids(st.(tokens := s.rest), s.words, s.end);
  }

  lemma {:induction false} RunGuids(st: State)
    requires Valid(st) && GuidsGivenOut(st) && Run(st).Success?
    ensures GuidsGivenOut(Run(st).value)
    decreases |st.tokens|
  {
    if st.tokens != [] {
      StepGuids(st);
      RunGuids(Step(st).value);
    }
  }

  /** Whatever the parser accepts, it numbers 0, 1, 2, ... over all levels, each once. */
  lemma {:induction false} ParsedGuidsAreUnique(tokens: seq<Token>)
    requires Parse(tokens).Success?
    ensures UniqueGuids(Parse(tokens).value)
    ensures exists n :: Guids(Parse(tokens).value) == FirstGuids(n)
  {
    assert Guids(EMPTY) == FirstGuids(0);
    RunGuids(Start(tokens));
  }

  // ------------------------------------------------------------------ what the parser accepts

  /** Statements one after the other, with the number of open blocks: every statement is
      terminated, none that ends in a semicolon or closing brace is a single word, and no
      block is closed that is not open.  Blocks may stay open. */
  predicate Accepts(ts: seq<Token>, depth: nat)
    decreases |ts|
  {
    ts == [] ||
    match TakeStatement(ts)
    case None => false
    case Some(s) =>
      if s.end.Semi? then |s.words| != 1 && Accepts(s.rest, depth)
      else if s.end.Close? then |s.words| != 1 && depth > 0 && Accepts(s.rest, depth - 1)
      else if s.words != [] && s.words[0] == "schedule" then
        TakeToClose(s.rest).Some? && Accepts(TakeToClose(s.rest).value.1, depth)
      else Accepts(s.rest, depth + 1)
  }

  lemma {:induction false} StepAccepts(st: State)
    requires Valid(st) && st.tokens != []
    ensures Accepts(st.tokens, |st.stack|) <==>
            Step(st).Success? && Accepts(Step(st).value.tokens, |Step(st).value.stack|)
  {
  }

  lemma {:induction false} RunsIffAccepts(st: State)
    requires Valid(st)
    ensures Run(st).Success? <==> Accepts(st.tokens, |st.stack|)
    decreases |st.tokens|
  {
    if st.tokens != [] {
      StepAccepts(st);
      if Step(st).Success? { RunsIffAccepts(Step(st).value); }
    }
  }

  /** The parser raises exactly on the token lists that are not acceptable. */
  lemma {:induction false} ParsesIffAccepts(tokens: seq<Token>)
    ensures Parse(tokens).Success? <==> Accepts(tokens, 0)
  {
    RunsIffAccepts(Start(tokens));
  }
}
