/** Printing a whole tree, and what lexing and parsing the printed text gives back. */
module GlmRoundTrip {
  import opened Prelude
  import opened GlmLexer
  import opened GlmParser
  import opened GlmPrinter

  /** The tree itself is a dict with integer keys only. */
  predicate OnlyKids(top: Listing) {
    forall e :: e in top.entries ==> e.Kid?
  }

  /** One dict per line, in the order of the listing. */
  function PrintItems(top: Listing, i: nat): Result<string>
    requires OnlyKids(top) && i <= |top.entries|
    decreases |top.entries| - i
  {
    if i == |top.entries| then Success("")
    else
      var text :- DictToString(top.entries[i].body);
      var more :- PrintItems(top, i + 1);
      Success(text + "\n" + more)
  }

  function Prepend(text: string, r: Result<string>): Result<string> {
    var more :- r;
    Success(text + more)
  }

  /** write, and sortedWrite when the listing is in ascending order of its keys. */
  method Write(top: Listing) returns (r: Result<string>)
    requires OnlyKids(top)
    ensures r == PrintItems(top, 0)
  {
    var output, i := "", 0;
    assert PrintItems(top, 0) == Prepend("", PrintItems(top, 0)) by {
      if PrintItems(top, 0).Success? { assert "" + PrintItems(top, 0).value == PrintItems(top, 0).value; }
    }
    while i < |top.entries|
      invariant i <= |top.entries|
      invariant PrintItems(top, 0) == Prepend(output, PrintItems(top, i))
    {
      var text := DictToString(top.entries[i].body);
      if text.Failure? {
        return Failure;
      }
      ghost var more := PrintItems(top, i + 1);
      if more.Success? {
        assert output + (text.value + "\n" + more.value) == output + (text.value + "\n") + more.value;
      }
      output := output + (text.value + "\n");
      i := i + 1;
    }
    assert output + "" == output;
    r := Success(output);
  }

  // ------------------------------------------------------------------ items

  ghost predicate IsItem(l: Listing) {
    IsBlock(l) || IsDirective(l) || IsSchedule(l)
  }

  ghost predicate IsTop(top: Listing) {
    OnlyKids(top) && forall i :: 0 <= i < |top.entries| ==> IsItem(top.entries[i].body)
  }

  predicate ScheduleAttrs(a: map<string, string>) {
    "omftype" !in a && "module" !in a && "clock" !in a && "object" in a && a["object"] == "schedule" && "name" in a && "cron" in a
  }

  function CronTokens(cron: string): seq<Token> {
    Tokens(Clean(cron), "")
  }

  /** The words of a schedule but the last. */
  function ShortenCron(cron: string): string {
    var words := Texts(CronTokens(cron));
    if words == [] then "" else Join(words[..|words| - 1])
  }

  /** What is left of an item: a schedule without its last word, anything else with long names cut. */
  function Shorten(l: Listing): Listing {
    var a := Attrs(l);
    if ScheduleAttrs(a) then
      Listing([Attr("object", "schedule"), Attr("name", a["name"]), Attr("cron", ShortenCron(a["cron"]))])
    else Cut(l)
  }

  /** The tree with every item shortened. */
  function Shortened(top: Listing): (r: Listing)
    requires OnlyKids(top)
    ensures OnlyKids(r) && |r.entries| == |top.entries|
  {
    Listing(seq(|top.entries|, i requires 0 <= i < |top.entries| => ShortenEntry(top.entries[i])))
  }

  function ShortenEntry(e: Entry): (r: Entry)
    ensures r.Kid? == e.Kid?
  {
    match e case Attr(_, _) => e case Kid(g, body) => Kid(g, Shorten(body))
  }

  function ItemTokens(l: Listing): seq<Token> {
    var a := Attrs(l);
    if "omftype" in a && "argument" in a then AttrTokens(a["omftype"], a["argument"])
    else if ScheduleAttrs(a) then Braced([Word("schedule"), Word(a["name"])], CronTokens(a["cron"]))
    else BlockTokens(Cut(l))
  }

  function ItemsTokens(top: Listing, i: nat): seq<Token>
    requires OnlyKids(top) && i <= |top.entries|
    decreases |top.entries| - i
  {
    if i == |top.entries| then [] else ItemTokens(top.entries[i].body) + ItemsTokens(top, i + 1)
  }

  // ------------------------------------------------------------------ lexing

  lemma {:induction false} DirectivePrints(l: Listing)
    requires IsDirective(l)
    ensures DictToString(l).Success? && IsSegment(DictToString(l).value, ItemTokens(l))
  {
    var a := Attrs(l);
    var p := a["omftype"] + " " + a["argument"];
    TwoWords(a["omftype"], a["argument"]);
    PhraseSegment(p, ';', "");
    PhraseTokensParts(p, a["omftype"], a["argument"]);
    assert p + ";" == p + [';'] + "";
  }

  /** The line end after the schedule's words goes, and the brace ends the last of them. */
  lemma {:induction false} CronFooter(cron: string)
    requires NoSlashes(cron)
    ensures IsSegment(cron + "\n};\n", CronTokens(cron) + [Close, Semi])
  {
    var end := "\n};\n";
    CleanConcat(cron, end);
    assert Clean(end) == "};" by {
      assert end[1..] == "};\n";
      assert Clean("};\n") == "};" by { assert Clean(";\n") == ";"; }
    }
    var c := Clean(cron);
    assert c + "};" == c + ['}'] + ";";
    TokensAround(c, '}', ";", "");
    assert Tokens(";", "") == [Semi];
    NoSlashesConcat(cron, end);
  }

  lemma {:induction false} SchedulePrints(l: Listing)
    requires IsSchedule(l)
    ensures DictToString(l).Success? && IsSegment(DictToString(l).value, ItemTokens(l))
  {
    var a := Attrs(l);
    ScheduleText(a["name"], a["cron"]);
  }

  lemma {:induction false} ScheduleText(name: string, cron: string)
    requires IsWord(name) && NoSlashes(cron)
    ensures IsSegment("schedule " + name + " {\n" + cron + "\n};\n", Braced([Word("schedule"), Word(name)], CronTokens(cron)))
  {
    IsLiteralWord("schedule");
    KeywordHeader("schedule", name);
    var header := "schedule" + " " + name;
    HeaderSegment(header);
    CronFooter(cron);
    var h, f := [Word("schedule"), Word(name)] + [Open], CronTokens(cron) + [Close, Semi];
    SegmentsConcat(header + " {\n", h, cron + "\n};\n", f);
    assert h + f == Braced([Word("schedule"), Word(name)], CronTokens(cron));
    assert header + " {\n" + (cron + "\n};\n") == "schedule " + name + " {\n" + cron + "\n};\n";
  }

  lemma {:induction false} ItemPrints(l: Listing)
    requires IsItem(l)
    ensures DictToString(l).Success? && Lexes(DictToString(l).value, ItemTokens(l))
  {
    hide Lexes, IsSegment, DictToString;
    if IsBlock(l) {
      BlockPrints(l);
    } else if IsDirective(l) {
      DirectivePrints(l);
      SegmentLexes(DictToString(l).value, ItemTokens(l));
    } else {
      SchedulePrints(l);
      SegmentLexes(DictToString(l).value, ItemTokens(l));
    }
  }

  lemma {:induction false} ItemsPrint(top: Listing, i: nat)
    requires IsTop(top) && i <= |top.entries|
    ensures PrintItems(top, i).Success? && Lexes(PrintItems(top, i).value, ItemsTokens(top, i))
    decreases |top.entries| - i
  {
    hide Lexes, IsSegment, IsItem, ItemTokens;
    if i < |top.entries| {
      ItemsPrint(top, i + 1);
      var l := top.entries[i].body;
      ItemPrints(l);
      BlankSegment('\n');
      SegmentLexes(['\n'], []);
      var text, more := DictToString(l).value, PrintItems(top, i + 1).value;
      LexesConcat(text, ItemTokens(l), ['\n'], []);
      assert ItemTokens(l) + [] == ItemTokens(l);
      LexesConcat(text + "\n", ItemTokens(l), more, ItemsTokens(top, i + 1));
    } else {
      NothingLexes();
    }
  }

  // ------------------------------------------------------------------ parsing

  lemma {:induction false} RunDirective(l: Listing, st: State, rest: seq<Token>, fin: State)
    requires Valid(st) && st.stack == [] && IsDirective(l) && st.tokens == ItemTokens(l) + rest
    requires fin == State(rest, PutKid(st.tree, st.guid, Renumber(l, st.guid + 1)), st.guid + 1, [])
    ensures Valid(fin) && Run(st) == Run(fin)
  {
    hide Run, IsPhrase, IsWord, SplitWords, Join, Attrs;
    RunStep(st);
    var key, value := Attrs(l)["omftype"], Attrs(l)["argument"];
    var words := SplitWords(value, "");
    JoinSplits(value, "");
    assert WordTokens([key] + words) == [Word(key)] + WordTokens(words);
    assert st.tokens == WordTokens([key] + words) + [Semi] + rest;
    TakeWords([key] + words, Semi, rest);
    assert ([key] + words)[1..] == words && "" + value == value;
    assert ListToString([key] + words) == Success(value);
    NoKidsCount(l, 0, st.guid + 1);
    assert Attrs(l) == map["omftype" := key, "argument" := value];
    assert Process(st.(tokens := rest), [key] + words, Semi) == Success(fin);
  }

  lemma {:induction false} TakeCron(ts: seq<Token>, rest: seq<Token>)
    requires Close !in ts
    ensures TakeToClose(ts + [Close] + rest) == Some((ts, rest))
  {
    if ts != [] {
      assert (ts + [Close] + rest)[1..] == ts[1..] + [Close] + rest;
      TakeCron(ts[1..], rest);
      assert [ts[0]] + ts[1..] == ts;
    } else {
      assert ts + [Close] + rest == [Close] + rest;
    }
  }

  /** The parser keeps all words of the schedule but the last. */
  lemma {:induction false} LastWordIsDropped(name: string, cron: string)
    ensures CronOf(["schedule", name] + ["{"] + Texts(CronTokens(cron)) + ["}"]) == ShortenCron(cron)
  {
    var words := Texts(CronTokens(cron));
    var full := ["schedule", name] + ["{"] + words + ["}"];
    if words != [] {
      assert full[3..|full| - 2] == words[..|words| - 1];
    }
  }

  lemma {:induction false} ShortSchedule(l: Listing, g: nat)
    requires IsSchedule(l)
    ensures Count(Shorten(l)) == 1
    ensures Renumber(Shorten(l), g)
         == Dict(map["object" := "schedule", "name" := Attrs(l)["name"], "cron" := ShortenCron(Attrs(l)["cron"])], map[])
  {
    var a := Attrs(l);
    var s := Shorten(l);
    ThreeAttrs(s, "object", "schedule", "name", a["name"], "cron", ShortenCron(a["cron"]));
    NoKidsCount(s, 0, g);
  }

  lemma {:induction false} ThreeAttrs(l: Listing, kx: string, x: string, ky: string, y: string, kz: string, z: string)
    requires l.entries == [Attr(kx, x), Attr(ky, y), Attr(kz, z)] && kx != ky && ky != kz && kx != kz
    ensures Attrs(l) == map[kx := x, ky := y, kz := z]
  {
    assert AttrsFrom(l, 3) == map[];
    assert AttrsFrom(l, 2) == map[kz := z];
    assert AttrsFrom(l, 1) == map[ky := y, kz := z];
  }

  lemma {:induction false} RunSchedule(l: Listing, st: State, rest: seq<Token>, fin: State)
    requires Valid(st) && st.stack == [] && IsSchedule(l) && st.tokens == ItemTokens(l) + rest
    requires fin == State(rest, PutKid(st.tree, st.guid, Renumber(Shorten(l), st.guid + 1)), st.guid + 1, [])
    ensures Valid(fin) && Run(st) == Run(fin)
  {
    var name, cron := Attrs(l)["name"], Attrs(l)["cron"];
    ShortSchedule(l, st.guid + 1);
    RunScheduleOf(name, cron, st, rest, fin);
  }

  lemma {:induction false} RunScheduleOf(name: string, cron: string, st: State, rest: seq<Token>, fin: State)
    requires Valid(st) && st.stack == [] && Close !in CronTokens(cron)
    requires st.tokens == Braced([Word("schedule"), Word(name)], CronTokens(cron)) + rest
    requires fin == State(rest, PutKid(st.tree, st.guid,
                                       Dict(map["object" := "schedule", "name" := name, "cron" := ShortenCron(cron)], map[])),
                          st.guid + 1, [])
    ensures Valid(fin) && Run(st) == Run(fin)
  {
    var words := ["schedule", name];
    var tail := CronTokens(cron) + [Close] + ([Semi] + rest);
    assert WordTokens(words) == [Word("schedule"), Word(name)];
    assert st.tokens == WordTokens(words) + [Open] + tail;
    TakeWords(words, Open, tail);
    TakeCron(CronTokens(cron), [Semi] + rest);
    LastWordIsDropped(name, cron);
    var mid := fin.(tokens := [Semi] + rest);
    assert Process(st.(tokens := tail), words, Open) == Success(mid);
    assert mid.tokens == WordTokens([]) + [Semi] + rest;
    TakeWords([], Semi, rest);
    assert Step(mid) == Success(fin);
  }

  lemma {:induction false} CutDirective(l: Listing, g: nat)
    requires IsDirective(l)
    ensures Renumber(Cut(l), g) == Renumber(l, g) && Count(Cut(l)) == Count(l) == 1
  {
    hide CutValue;
    AttrsOfCut(l, 0);
    CutNoKids(l);
    NoKidsCount(l, 0, g);
    NoKidsCount(Cut(l), 0, g);
    assert forall k :: k in Attrs(l) ==> CutValue(k, Attrs(l)[k]) == Attrs(l)[k] by {
      CutOthers("omftype", Attrs(l)["omftype"]);
      CutOthers("argument", Attrs(l)["argument"]);
    }
    assert Attrs(Cut(l)) == Attrs(l);
  }

  lemma CutOthers(key: string, value: string)
    requires key != "name" && key != "parent"
    ensures CutValue(key, value) == value
  {
  }

  /** The state after a block of the top level. */
  lemma {:induction false} BlockAfter(st: State, rest: seq<Token>, l: Listing)
    requires Valid(st) && st.stack == []
    ensures After(st, rest, PutKid(GetAt(st.tree, st.stack), st.guid, Renumber(l, st.guid + 1)), Count(l))
         == State(rest, PutKid(st.tree, st.guid, Renumber(l, st.guid + 1)), st.guid + Count(l), [])
  {
  }

  lemma {:induction false} RunItem(l: Listing, st: State, rest: seq<Token>, fin: State)
    requires Valid(st) && st.stack == [] && IsItem(l) && st.tokens == ItemTokens(l) + rest
    requires fin == State(rest, PutKid(st.tree, st.guid, Renumber(Shorten(l), st.guid + 1)), st.guid + Count(Shorten(l)), [])
    ensures Valid(fin) && Run(st) == Run(fin)
  {
    if IsBlock(l) {
      CutIsBlock(l);
      BlockAfter(st, rest, Cut(l));
      RunBlock(Cut(l), st, rest, fin);
    } else if IsDirective(l) {
      CutDirective(l, st.guid + 1);
      RunDirective(l, st, rest, fin);
    } else {
      ShortSchedule(l, 0);
      RunSchedule(l, st, rest, fin);
    }
  }

  /** What the parser has at the end when the items from the i-th on are still to come. */
  function AfterItems(top: Listing, i: nat, st: State): State
    requires OnlyKids(top) && i <= |top.entries|
  {
    State([], Dict(st.tree.attrs, st.tree.kids + KidsFrom(Shortened(top), i, st.guid)), st.guid + CountFrom(Shortened(top), i), [])
  }

  function AfterItem(top: Listing, i: nat, st: State): State
    requires OnlyKids(top) && i < |top.entries|
  {
    var short := Shorten(top.entries[i].body);
    State(ItemsTokens(top, i + 1), PutKid(st.tree, st.guid, Renumber(short, st.guid + 1)), st.guid + Count(short), [])
  }

  lemma {:induction false} AfterItemsStep(top: Listing, i: nat, st: State)
    requires OnlyKids(top) && i < |top.entries|
    ensures AfterItems(top, i, st) == AfterItems(top, i + 1, AfterItem(top, i, st))
  {
    var short := Shortened(top);
    var body := Shorten(top.entries[i].body);
    assert short.entries[i] == Kid(top.entries[i].guid, body);
    var kid := Renumber(body, st.guid + 1);
    var more := KidsFrom(short, i + 1, st.guid + Count(body));
    assert KidsFrom(short, i, st.guid) == map[st.guid := kid] + more;
    FirstPut(st.tree.kids, st.guid, kid, more, {});
  }

  lemma {:induction false} RunItems(top: Listing, i: nat, st: State)
    requires IsTop(top) && i <= |top.entries|
    requires Valid(st) && st.stack == [] && st.tokens == ItemsTokens(top, i)
    ensures Run(st) == Success(AfterItems(top, i, st))
    decreases |top.entries| - i
  {
    hide IsItem, ItemTokens, Run, Shorten, Renumber;
    if i == |top.entries| {
      assert st.tree.kids + map[] == st.tree.kids;
      assert st == AfterItems(top, i, st);
      RunEnds(st);
    } else {
      var mid := AfterItem(top, i, st);
      RunItem(top.entries[i].body, st, ItemsTokens(top, i + 1), mid);
      AfterItemsStep(top, i, st);
      RunItems(top, i + 1, mid);
    }
  }

  /** Lexing and parsing what is printed of a well-formed tree, in whatever order its dicts are
      iterated, gives the tree back with its guids renumbered in preorder, every schedule short of
      its last word and names that are too long cut. */
  lemma {:induction false} RoundTrip(top: Listing)
    requires IsTop(top)
    ensures PrintItems(top, 0).Success?
    ensures Parse(Tokenize(PrintItems(top, 0).value)) == Success(Renumber(Shortened(top), 0))
  {
    ItemsPrint(top, 0);
    LexesAlone(PrintItems(top, 0).value, ItemsTokens(top, 0));
    var st := Start(ItemsTokens(top, 0));
    var short := Shortened(top);
    RunItems(top, 0, st);
    OnlyKidsNoAttrs(short, 0);
    assert map[] + KidsFrom(short, 0, 0) == KidsFrom(short, 0, 0);
  }

  lemma {:induction false} OnlyKidsNoAttrs(top: Listing, i: nat)
    requires OnlyKids(top) && i <= |top.entries|
    ensures AttrsFrom(top, i) == map[]
    decreases |top.entries| - i
  {
    if i < |top.entries| {
      assert top.entries[i] in top.entries;
      OnlyKidsNoAttrs(top, i + 1);
    }
  }

  // ------------------------------------------------------------------ the same tree up to guids

  /** The dict a listing lists. */
  function DictOf(l: Listing): Dict
    decreases l, |l.entries| + 1
  {
    Dict(Attrs(l), OwnKids(l, 0))
  }

  function OwnKids(l: Listing, i: nat): map<nat, Dict>
    requires i <= |l.entries|
    decreases l, |l.entries| - i
  {
    if i == |l.entries| then map[]
    else match l.entries[i]
      case Attr(_, _) => OwnKids(l, i + 1)
      case Kid(g, body) => map[g := DictOf(body)] + OwnKids(l, i + 1)
  }

  /** An iteration meets every guid of a dict once. */
  ghost predicate DistinctGuids(l: Listing, i: nat)
    requires i <= |l.entries|
    decreases l, |l.entries| - i
  {
    i == |l.entries| ||
    (DistinctGuids(l, i + 1) &&
     match l.entries[i]
     case Attr(_, _) => true
     case Kid(g, body) => g !in OwnKids(l, i + 1) && DistinctGuids(body, 0))
  }

  ghost predicate Injective(f: map<nat, nat>) {
    forall g, h :: g in f && h in f && f[g] == f[h] ==> g == h
  }

  /** The dicts differ in their guids only: there is a one-to-one renaming on every level. */
  ghost predicate SameUpToGuids(d: Dict, e: Dict)
    decreases d, 1
  {
    d.attrs == e.attrs && exists f :: Matches(d, e, f)
  }

  ghost predicate Matches(d: Dict, e: Dict, f: map<nat, nat>)
    decreases d, 0
  {
    && f.Keys == d.kids.Keys && f.Values == e.kids.Keys && Injective(f)
    && forall g :: g in d.kids ==> SameUpToGuids(d.kids[g], e.kids[f[g]])
  }

  /** From own guids to preorder positions. */
  function Renaming(l: Listing, i: nat, g: nat): map<nat, nat>
    requires i <= |l.entries|
    decreases |l.entries| - i
  {
    if i == |l.entries| then map[]
    else match l.entries[i]
      case Attr(_, _) => Renaming(l, i + 1, g)
      case Kid(own, body) => map[own := g] + Renaming(l, i + 1, g + Count(body))
  }

  lemma {:induction false} GuidsFromHere(l: Listing, i: nat, g: nat)
    requires i <= |l.entries|
    ensures forall h :: h in KidsFrom(l, i, g) ==> h >= g
    decreases |l.entries| - i
  {
    if i < |l.entries| {
      match l.entries[i] {
        case Attr(_, _) => GuidsFromHere(l, i + 1, g);
        case Kid(_, body) => GuidsFromHere(l, i + 1, g + Count(body));
      }
    }
  }

  lemma {:induction false} RenamingMore(f: map<nat, nat>, own: nat, g: nat)
    requires Injective(f) && own !in f && g !in f.Values
    ensures var f' := map[own := g] + f; Injective(f') && f'.Values == f.Values + {g}
  {
    var f' := map[own := g] + f;
    assert f'[own] == g;
    forall x | x in f.Values
      ensures x in f'.Values
    {
      var k :| k in f && f[k] == x;
      assert f'[k] == x;
    }
  }

  ghost predicate MapsMatch(m: map<nat, Dict>, n: map<nat, Dict>, f: map<nat, nat>) {
    f.Keys == m.Keys && f.Values == n.Keys && Injective(f) && forall g :: g in m ==> SameUpToGuids(m[g], n[f[g]])
  }

  /** One more kid on both sides. */
  lemma {:induction false} MatchesMore(m: map<nat, Dict>, n: map<nat, Dict>, f: map<nat, nat>, own: nat, kid: Dict, g: nat, kid': Dict,
                                       m': map<nat, Dict>, n': map<nat, Dict>, f': map<nat, nat>)
    requires own !in m && g !in n && m' == map[own := kid] + m && n' == map[g := kid'] + n && f' == map[own := g] + f
    requires SameUpToGuids(kid, kid') && MapsMatch(m, n, f)
    ensures MapsMatch(m', n', f')
  {
    hide SameUpToGuids;
    RenamingMore(f, own, g);
    assert f'.Keys == m'.Keys && f'.Values == n'.Keys;
    forall h | h in m'
      ensures SameUpToGuids(m'[h], n'[f'[h]])
    {
      if h != own {
        assert f[h] in f.Values && n'[f'[h]] == n[f[h]] && m'[h] == m[h];
      }
    }
  }

  lemma {:induction false} KidEntry(l: Listing, i: nat, own: nat, body: Listing, g: nat)
    requires i < |l.entries| && l.entries[i] == Kid(own, body) && own !in OwnKids(l, i + 1)
    requires SameUpToGuids(DictOf(body), Renumber(body, g + 1))
    requires MapsMatch(OwnKids(l, i + 1), KidsFrom(l, i + 1, g + Count(body)), Renaming(l, i + 1, g + Count(body)))
    ensures MapsMatch(OwnKids(l, i), KidsFrom(l, i, g), Renaming(l, i, g))
  {
    hide SameUpToGuids, MapsMatch, DictOf, Renumber;
    assert Count(body) >= 1;
    GuidsFromHere(l, i + 1, g + Count(body));
    MatchesMore(OwnKids(l, i + 1), KidsFrom(l, i + 1, g + Count(body)), Renaming(l, i + 1, g + Count(body)),
                own, DictOf(body), g, Renumber(body, g + 1), OwnKids(l, i), KidsFrom(l, i, g), Renaming(l, i, g));
  }

  lemma {:induction false} NothingMatches()
    ensures MapsMatch(map[], map[], map[])
  {
    var f: map<nat, nat> := map[];
    assert f.Values == {};
  }

  lemma {:induction false} RenumberedFromMatches(l: Listing, i: nat, g: nat)
    requires i <= |l.entries| && DistinctGuids(l, i)
    ensures MapsMatch(OwnKids(l, i), KidsFrom(l, i, g), Renaming(l, i, g))
    decreases l, |l.entries| - i
  {
    hide MapsMatch, SameUpToGuids, DictOf, Renumber, Count;
    if i == |l.entries| {
      NothingMatches();
    } else {
      match l.entries[i] {
        case Attr(_, _) =>
          RenumberedFromMatches(l, i + 1, g);
        case Kid(own, body) =>
          RenumberedFromMatches(l, i + 1, g + Count(body));
          RenumberedIsSame(body, g + 1);
          KidEntry(l, i, own, body, g);
      }
    }
  }

  /** Renumbering changes nothing but the guids. */
  lemma {:induction false} RenumberedIsSame(l: Listing, g: nat)
    requires DistinctGuids(l, 0)
    ensures SameUpToGuids(DictOf(l), Renumber(l, g))
    decreases l, |l.entries| + 1
  {
    RenumberedFromMatches(l, 0, g);
    assert Matches(DictOf(l), Renumber(l, g), Renaming(l, 0, g));
  }

  // ------------------------------------------------------------------ long names

  /** The dict with all names cut that are too long, on every level. */
  function CutDict(d: Dict): Dict {
    Dict(CutAttrs(d.attrs), map g | g in d.kids :: CutDict(d.kids[g]))
  }

  /** No name or parent has more than 62 characters, on any level. */
  predicate NamesFit(d: Dict) {
    && ("name" in d.attrs ==> |d.attrs["name"]| <= 62) && ("parent" in d.attrs ==> |d.attrs["parent"]| <= 62)
    && forall g :: g in d.kids ==> NamesFit(d.kids[g])
  }

  lemma {:induction false} CutKeepsIff(key: string, value: string)
    ensures CutValue(key, value) == value <==> !((key == "name" || key == "parent") && |value| > 62)
  {
  }

  /** Cutting changes nothing exactly if no name is longer than 62 characters. */
  lemma {:induction false} CutIsNothingIff(d: Dict)
    ensures CutDict(d) == d <==> NamesFit(d)
  {
    hide CutValue;
    forall k | k in d.attrs
      ensures CutValue(k, d.attrs[k]) == d.attrs[k] <==> !((k == "name" || k == "parent") && |d.attrs[k]| > 62)
    {
      CutKeepsIff(k, d.attrs[k]);
    }
    forall g | g in d.kids
      ensures CutDict(d.kids[g]) == d.kids[g] <==> NamesFit(d.kids[g])
    {
      CutIsNothingIff(d.kids[g]);
    }
    if CutDict(d) == d {
      assert forall k :: k in d.attrs ==> CutDict(d).attrs[k] == CutValue(k, d.attrs[k]);
      assert forall g :: g in d.kids ==> CutDict(d).kids[g] == CutDict(d.kids[g]);
    }
    if NamesFit(d) {
      assert CutAttrs(d.attrs) == d.attrs;
      assert CutDict(d).kids == d.kids;
    }
  }

  /** What is left of a name of more than 62 characters: the first 62 of a word. */
  lemma {:induction false} LongNamesAreCut(d: Dict)
    ensures forall k :: k in d.attrs ==> k in CutDict(d).attrs
    ensures forall k :: k in d.attrs && k in {"name", "parent"} && |d.attrs[k]| > 62 && IsWord(d.attrs[k]) ==>
                          k in CutDict(d).attrs && CutDict(d).attrs[k] == d.attrs[k][..62]
  {
    forall k | k in d.attrs && k in {"name", "parent"} && |d.attrs[k]| > 62 && IsWord(d.attrs[k])
      ensures CutValue(k, d.attrs[k]) == d.attrs[k][..62]
    {
      assert d.attrs[k][61] in d.attrs[k];
    }
  }

  lemma {:induction false} CountOfCut(l: Listing, i: nat)
    requires i <= |l.entries|
    ensures CountFrom(Cut(l), i) == CountFrom(l, i)
    decreases l, |l.entries| - i
  {
    hide CutValue;
    if i < |l.entries| {
      CountOfCut(l, i + 1);
      assert Cut(l).entries[i] == CutEntry(l.entries[i]);
      if l.entries[i].Kid? { CountOfCut(l.entries[i].body, 0); }
    }
  }

  lemma {:induction false} RenumberCut(l: Listing, g: nat)
    ensures Renumber(Cut(l), g) == CutDict(Renumber(l, g))
    decreases l, |l.entries| + 1
  {
    hide CutValue, KidsFrom;
    AttrsOfCut(l, 0);
    KidsOfCut(l, 0, g);
    assert Renumber(Cut(l), g).kids == CutDict(Renumber(l, g)).kids;
  }

  ghost predicate KidsAreCut(m: map<nat, Dict>, n: map<nat, Dict>) {
    n.Keys == m.Keys && forall g :: g in m ==> n[g] == CutDict(m[g])
  }

  lemma {:induction false} KidsOfCut(l: Listing, i: nat, g: nat)
    requires i <= |l.entries|
    ensures KidsAreCut(KidsFrom(l, i, g), KidsFrom(Cut(l), i, g))
    decreases l, |l.entries| - i
  {
    hide CutValue, CutDict, Renumber, Count;
    if i < |l.entries| {
      assert Cut(l).entries[i] == CutEntry(l.entries[i]);
      match l.entries[i] {
        case Attr(_, _) => KidsOfCut(l, i + 1, g);
        case Kid(own, body) =>
          CountOfCut(body, 0);
          assert Count(Cut(body)) == Count(body) by { SameCount(body); }
          KidsOfCut(l, i + 1, g + Count(body));
          RenumberCut(body, g + 1);
      }
    }
  }

  lemma SameCount(l: Listing)
    requires CountFrom(Cut(l), 0) == CountFrom(l, 0)
    ensures Count(Cut(l)) == Count(l)
  {
  }

  lemma {:induction false} OwnKidsOfCut(l: Listing, i: nat)
    requires i <= |l.entries|
    ensures KidsAreCut(OwnKids(l, i), OwnKids(Cut(l), i))
    decreases l, |l.entries| - i
  {
    hide CutValue, CutDict, DictOf;
    if i < |l.entries| {
      assert Cut(l).entries[i] == CutEntry(l.entries[i]);
      OwnKidsOfCut(l, i + 1);
      if l.entries[i].Kid? { DictOfCut(l.entries[i].body); }
    }
  }

  lemma {:induction false} DictOfCut(l: Listing)
    ensures DictOf(Cut(l)) == CutDict(DictOf(l))
    decreases l, |l.entries| + 1
  {
    hide CutValue, OwnKids;
    AttrsOfCut(l, 0);
    OwnKidsOfCut(l, 0);
    assert DictOf(Cut(l)).kids == CutDict(DictOf(l)).kids;
  }

  lemma {:induction false} GuidsOfCut(l: Listing, i: nat)
    requires i <= |l.entries| && DistinctGuids(l, i)
    ensures DistinctGuids(Cut(l), i)
    decreases l, |l.entries| - i
  {
    hide CutValue, CutDict, DictOf, OwnKids;
    if i < |l.entries| {
      assert Cut(l).entries[i] == CutEntry(l.entries[i]);
      GuidsOfCut(l, i + 1);
      if l.entries[i].Kid? {
        OwnKidsOfCut(l, i + 1);
        GuidsOfCut(l.entries[i].body, 0);
      }
    }
  }

  /** Without schedules the parsed tree is the printed tree with long names cut, up to guids, and
      so the printed tree itself if no name is longer than 62 characters. */
  lemma {:induction false} RoundTripKeepsTree(top: Listing)
    requires IsTop(top) && DistinctGuids(top, 0)
    requires forall i :: 0 <= i < |top.entries| ==> !ScheduleAttrs(Attrs(top.entries[i].body))
    ensures PrintItems(top, 0).Success? && Parse(Tokenize(PrintItems(top, 0).value)).Success?
    ensures SameUpToGuids(CutDict(DictOf(top)), Parse(Tokenize(PrintItems(top, 0).value)).value)
    ensures NamesFit(DictOf(top)) ==> SameUpToGuids(DictOf(top), Parse(Tokenize(PrintItems(top, 0).value)).value)
  {
    hide SameUpToGuids, CutDict, NamesFit, IsTop, DictOf, Renumber, Parse, Tokenize, PrintItems, ScheduleAttrs;
    RoundTrip(top);
    OnlyCut(top);
    GuidsOfCut(top, 0);
    RenumberedIsSame(Cut(top), 0);
    DictOfCut(top);
    CutIsNothingIff(DictOf(top));
  }

  lemma {:induction false} OnlyCut(top: Listing)
    requires IsTop(top) && forall i :: 0 <= i < |top.entries| ==> !ScheduleAttrs(Attrs(top.entries[i].body))
    ensures Shortened(top) == Cut(top)
  {
    hide ScheduleAttrs, IsItem, Attrs, CutValue;
    forall i | 0 <= i < |top.entries|
      ensures Shortened(top).entries[i] == Cut(top).entries[i]
    {
      assert top.entries[i] in top.entries;
      assert Shortened(top).entries[i] == ShortenEntry(top.entries[i]) && Cut(top).entries[i] == CutEntry(top.entries[i]);
    }
    assert Shortened(top).entries == Cut(top).entries;
  }

  // ------------------------------------------------------------------ comments

  /** text is plain with n comments put in, each on a line that has none yet, not inside a link,
      and followed by its line end. */
  ghost predicate Commented(plain: string, text: string, n: nat)
    decreases n
  {
    if n == 0 then text == plain
    else exists a, c, b ::
      text == a + "//" + c + "\n" + b && CommentCanStart(a) && '\n' !in c && !Straddles(a, b) && Commented(plain, a + b, n - 1)
  }

  lemma {:induction false} CommentsAreNothing(plain: string, text: string, n: nat)
    requires Commented(plain, text, n)
    ensures Tokenize(text) == Tokenize(plain)
    decreases n
  {
    hide Tokenize, Straddles, CommentCanStart;
    if n > 0 {
      var a, c, b :| text == a + "//" + c + "\n" + b && CommentCanStart(a) && '\n' !in c && !Straddles(a, b) && Commented(plain, a + b, n - 1);
      CommentIsNothing(a, c, b);
      CommentsAreNothing(plain, a + b, n - 1);
    }
  }

  /** A printed tree with comments put in parses to the same as without. */
  lemma {:induction false} CommentedRoundTrip(top: Listing, text: string, n: nat)
    requires IsTop(top) && PrintItems(top, 0).Success? && Commented(PrintItems(top, 0).value, text, n)
    ensures Parse(Tokenize(text)) == Success(Renumber(Shortened(top), 0))
  {
    hide Tokenize, Parse, PrintItems, Commented, IsItem;
    RoundTrip(top);
    CommentsAreNothing(PrintItems(top, 0).value, text, n);
  }

  /** In text without double slashes a comment can stand anywhere but behind a slash or in a link. */
  lemma {:induction false} OneComment(a: string, c: string, b: string)
    requires NoSlashes(a + b) && '\n' !in c && (a != "" ==> a[|a| - 1] != '/') && !(|a| >= 5 && a[|a| - 5..] == "http:")
    ensures Commented(a + b, a + "//" + c + "\n" + b, 1)
  {
    hide Straddles;
    var s := a + b;
    assert forall i :: 0 <= i < |a| ==> a[i] == s[i];
    assert LeavesOpen("", a) && a == "" + a;
    StraddleHasSlashes(a, b);
    assert Commented(s, a + b, 0);
  }

  lemma {:induction false} StraddleHasSlashes(a: string, b: string)
    requires NoSlashes(a + b)
    ensures !Straddles(a, b)
  {
    if Straddles(a, b) {
      var k: nat :| StraddlesAt(a, b, k);
      LinkIsThere(a, b, k);
    }
  }

  lemma {:induction false} LinkIsThere(a: string, b: string, k: nat)
    requires StraddlesAt(a, b, k)
    ensures !NoSlashes(a + b)
  {
    var s, i := a + b, |a| - k + 5;
    assert s[|a| - k..][..7] == a[|a| - k..] + b[..7 - k] == "http://"[..k] + "http://"[k..] == "http://";
    assert s[i] == s[|a| - k..][..7][5] && s[i + 1] == s[|a| - k..][..7][6];
  }

  // ------------------------------------------------------------------ schedules

  /** The number of characters that are not blank. */
  function Ink(s: string): nat {
    if s == "" then 0 else (if s[0] in " \n\r\t" then 0 else 1) + Ink(s[1..])
  }

  function InkOf(words: seq<string>): nat {
    if words == [] then 0 else Ink(words[0]) + InkOf(words[1..])
  }

  lemma {:induction false} InkConcat(a: string, b: string)
    ensures Ink(a + b) == Ink(a) + Ink(b)
  {
    if a == "" {
      assert a + b == b;
    } else {
      assert (a + b)[0] == a[0] && (a + b)[1..] == a[1..] + b;
      InkConcat(a[1..], b);
    }
  }

  lemma {:induction false} InkOfConcat(a: seq<string>, b: seq<string>)
    ensures InkOf(a + b) == InkOf(a) + InkOf(b)
  {
    if a == [] {
      assert a + b == b;
    } else {
      assert (a + b)[0] == a[0] && (a + b)[1..] == a[1..] + b;
      InkOfConcat(a[1..], b);
    }
  }

  lemma {:induction false} CleanKeepsInk(s: string)
    ensures Ink(Clean(s)) == Ink(s)
  {
    if s != "" {
      CleanKeepsInk(s[1..]);
      if s[0] != '\n' && s[0] != '\r' {
        var c := if s[0] == '\t' then ' ' else s[0];
        InkConcat([c], Clean(s[1..]));
        assert Ink([c]) == if s[0] in " \n\r\t" then 0 else 1;
      }
    }
  }

  lemma {:induction false} JoinKeepsInk(words: seq<string>)
    ensures Ink(Join(words)) == InkOf(words)
  {
    if |words| == 1 {
      assert words[1..] == [];
    } else if words != [] {
      JoinKeepsInk(words[1..]);
      InkConcat(words[0] + " ", Join(words[1..]));
      InkConcat(words[0], " ");
    }
  }

  ghost predicate AllInked(words: seq<string>) {
    forall w :: w in words ==> Ink(w) > 0
  }

  lemma {:induction false} TextsConcat(a: seq<Token>, b: seq<Token>)
    ensures Texts(a + b) == Texts(a) + Texts(b)
  {
  }

  /** What one character between two words leaves behind. */
  lemma {:induction false} DelimiterInk(c: char)
    requires IsDelimiter(c) && c !in "\n\r\t"
    ensures InkOf(Texts(DelimiterToken(c))) == Ink([c]) && AllInked(Texts(DelimiterToken(c)))
  {
    var words := Texts(DelimiterToken(c));
    if c == ' ' {
      assert words == [] && Ink([c]) == 0;
    } else {
      assert words == [[c]] && words[1..] == [] && Ink([c]) == 1;
    }
  }

  lemma {:induction false} WordInk(w: string)
    requires w != "" ==> Ink(w) > 0
    ensures InkOf(Texts(Flush(w))) == Ink(w) && AllInked(Texts(Flush(w)))
  {
    if w != "" {
      assert Texts(Flush(w)) == [w] && [w][1..] == [];
    }
  }

  /** Lexing loses blanks only, and every token has something to see. */
  lemma {:induction false} TokensKeepInk(s: string, word: string)
    requires (word != "" ==> Ink(word) > 0) && forall c :: c in s ==> c !in "\n\r\t"
    ensures InkOf(Texts(Tokens(s, word))) == Ink(word) + Ink(s) && AllInked(Texts(Tokens(s, word)))
  {
    if s == "" {
      WordInk(word);
    } else {
      assert s[0] in s && s == [s[0]] + s[1..];
      InkConcat([s[0]], s[1..]);
      if IsDelimiter(s[0]) {
        TokensKeepInk(s[1..], "");
        WordInk(word);
        DelimiterInk(s[0]);
        var a, b, c := Flush(word), DelimiterToken(s[0]), Tokens(s[1..], "");
        TextsConcat(a + b, c);
        TextsConcat(a, b);
        InkOfConcat(Texts(a) + Texts(b), Texts(c));
        InkOfConcat(Texts(a), Texts(b));
      } else {
        InkConcat(word, [s[0]]);
        TokensKeepInk(s[1..], word + [s[0]]);
      }
    }
  }

  lemma {:induction false} CleanLeavesNoLineEnds(s: string)
    ensures forall c :: c in Clean(s) ==> c !in "\n\r\t"
  {
    if s != "" { CleanLeavesNoLineEnds(s[1..]); }
  }

  /** A schedule comes back as it was exactly when it is empty. */
  lemma {:induction false} ScheduleIsKeptIffEmpty(cron: string)
    ensures ShortenCron(cron) == cron <==> cron == ""
  {
    var words := Texts(CronTokens(cron));
    CleanLeavesNoLineEnds(cron);
    CleanKeepsInk(cron);
    TokensKeepInk(Clean(cron), "");
    if words != [] {
      var last := words[|words| - 1];
      assert words == words[..|words| - 1] + [last] && last in words;
      InkOfConcat(words[..|words| - 1], [last]);
      assert [last][1..] == [];
      JoinKeepsInk(words[..|words| - 1]);
    } else if cron == "" {
      assert CronTokens(cron) == [];
    }
  }

  /** So the item itself is kept exactly when it is no schedule and has no long names, or is a
      schedule without words. */
  lemma {:induction false} ItemIsKeptIff(l: Listing, g: nat)
    requires IsItem(l)
    ensures Renumber(Shorten(l), g) == Renumber(l, g) <==>
            if ScheduleAttrs(Attrs(l)) then Attrs(l)["cron"] == "" else NamesFit(Renumber(l, g))
  {
    hide Renumber, NamesFit, Cut, CutDict;
    if ScheduleAttrs(Attrs(l)) {
      ScheduleIsKeptIff(l, g);
    } else {
      RenumberCut(l, g);
      CutIsNothingIff(Renumber(l, g));
    }
  }

  lemma {:induction false} ScheduleIsKeptIff(l: Listing, g: nat)
    requires IsItem(l) && ScheduleAttrs(Attrs(l))
    ensures Renumber(Shorten(l), g) == Renumber(l, g) <==> Attrs(l)["cron"] == ""
  {
    ShortSchedule(l, g);
    NoKidsCount(l, 0, g);
    ScheduleIsKeptIffEmpty(Attrs(l)["cron"]);
  }

  // ------------------------------------------------------------------ lines without a semicolon

  ghost predicate IsHashLine(l: Listing, key: string, word: string) {
    l.entries == [Attr(key, word)] && key in {"#include", "#define", "#set"} && IsWord(word)
  }

  lemma {:induction false} HashWords(key: string, word: string)
    requires key in {"#include", "#define", "#set"} && IsWord(word)
    ensures Tokenize(key + " " + word + "\n" + "\n") == [Word(key), Word(word)]
  {
    HashIsWord(key);
    WordIsPhrase(word);
    TwoWords(key, word);
    var p := key + " " + word;
    PhraseLexes(p);
    NoSlashesConcat(p, "\n\n");
    var s := key + " " + word + "\n" + "\n";
    assert s == p + "\n\n";
    HttpNeedsSlashes(s);
    CommentNeedsSlashes(s);
    CleanConcat(p, "\n\n");
    assert Clean("\n\n") == "" by { assert "\n\n"[1..] == "\n" && Clean("\n") == ""; }
    assert p + "" == p;
    assert WordTokens([key, word]) == [Word(key), Word(word)];
  }

  lemma HashIsWord(key: string)
    requires key in {"#include", "#define", "#set"}
    ensures IsWord(key)
  {
  }

  /** `#include`, `#define` and `#set` are printed without a semicolon: at the end of a tree they
      make the text one that the parser raises on. */
  lemma {:induction false} HashLinesDoNotParse(l: Listing, key: string, word: string, top: Listing)
    requires IsHashLine(l, key, word) && top.entries == [Kid(0, l)]
    ensures OnlyKids(top) && PrintItems(top, 0).Success?
    ensures PrintItems(top, 0).value == key + " " + (if key == "#include" then "\"" + word + "\"" else word) + "\n" + "\n"
    ensures Parse(Tokenize(PrintItems(top, 0).value)).Failure?
  {
    hide Tokenize, IsWord;
    var arg := if key == "#include" then "\"" + word + "\"" else word;
    OneAttr(l, key, word);
    HashPrints(l, key, word, arg);
    OnlyItem(l, key + " " + arg + "\n", top);
    if key == "#include" { QuotedWord(word); }
    HashWords(key, arg);
    NeverEnds(key, arg);
  }

  lemma {:induction false} QuotedWord(word: string)
    requires IsWord(word)
    ensures IsWord("\"" + word + "\"")
  {
    NoSlashesConcat("\"", word);
    NoSlashesConcat("\"" + word, "\"");
  }

  lemma {:induction false} OneAttr(l: Listing, key: string, word: string)
    requires l.entries == [Attr(key, word)]
    ensures Attrs(l) == map[key := word]
  {
    assert AttrsFrom(l, 1) == map[];
  }

  lemma {:induction false} HashPrints(l: Listing, key: string, word: string, arg: string)
    requires Attrs(l) == map[key := word] && key in {"#include", "#define", "#set"}
    requires arg == if key == "#include" then "\"" + word + "\"" else word
    ensures DictToString(l) == Success(key + " " + arg + "\n")
  {
    if key == "#include" {
      assert "#include \"" + word + "\"\n" == key + " " + arg + "\n";
    } else if key == "#define" {
      assert "#define " + word + "\n" == key + " " + arg + "\n";
    } else {
      assert "#set " + word + "\n" == key + " " + arg + "\n";
    }
  }

  lemma {:induction false} OnlyItem(l: Listing, text: string, top: Listing)
    requires top.entries == [Kid(0, l)] && DictToString(l) == Success(text)
    ensures OnlyKids(top) && PrintItems(top, 0) == Success(text + "\n")
  {
    hide DictToString;
    assert top.entries[0].body == l;
    assert PrintItems(top, 1) == Success("");
    assert text + "\n" + "" == text + "\n";
  }

  lemma {:induction false} NeverEnds(a: string, b: string)
    ensures Parse([Word(a), Word(b)]).Failure?
  {
    var ts := [Word(a), Word(b)];
    assert TakeStatement(ts[2..]).None? && ts[1..][1..] == ts[2..] == [];
    assert TakeStatement(ts[1..]).None?;
    RunStep(Start(ts));
  }

  /** A schedule of two words goes out and comes back with one. */
  lemma {:induction false} ScheduleLosesItsLastWord()
    ensures var l := Listing([Attr("object", "schedule"), Attr("name", "s"), Attr("cron", "8 1")]);
            var top := Listing([Kid(0, l)]);
            && IsTop(top) && PrintItems(top, 0).Success?
            && var parsed := Parse(Tokenize(PrintItems(top, 0).value));
               parsed.Success? && 0 in parsed.value.kids && parsed.value.kids[0].attrs == Attrs(l)["cron" := "8"]
  {
    hide Tokens, Clean, Parse, Tokenize, PrintItems, IsBlock, IsDirective, ShortenCron, Shorten, Renumber, Attrs;
    var l := Listing([Attr("object", "schedule"), Attr("name", "s"), Attr("cron", "8 1")]);
    var top := Listing([Kid(0, l)]);
    ThreeAttrs(l, "object", "schedule", "name", "s", "cron", "8 1");
    TwoWordCron();
    assert top.entries[0].body == l;
    RoundTrip(top);
    ShortSchedule(l, 1);
    var short := Shortened(top);
    assert short.entries[0] == Kid(0, Shorten(l));
    KidEntryFirst(short, 0, Shorten(l));
  }

  lemma {:induction false} KidEntryFirst(l: Listing, own: nat, body: Listing)
    requires l.entries == [Kid(own, body)]
    ensures Renumber(l, 0).kids == map[0 := Renumber(body, 1)]
  {
    assert KidsFrom(l, 1, Count(body)) == map[];
    assert KidsFrom(l, 0, 0) == map[0 := Renumber(body, 1)] + KidsFrom(l, 1, 0 + Count(body));
  }

  lemma {:induction false} TwoWordCron()
    ensures CronTokens("8 1") == [Word("8"), Word("1")] && ShortenCron("8 1") == "8"
  {
    hide Tokens;
    var s := "8 1";
    assert Clean(s) == s by { CleanPhrase(s); }
    assert s == "8" + [' '] + "1";
    TokensAround("8", ' ', "1", "");
    OneWord("8");
    OneWord("1");
    assert Texts(CronTokens(s)) == ["8", "1"];
  }
}
