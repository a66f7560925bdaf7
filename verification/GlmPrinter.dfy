/** The GLM printer, and the round trip through lexer and parser.

    A listing is a dict together with the order in which Python happens to iterate it, so a
    statement about all listings is a statement about every order. */
module GlmPrinter {
  import opened Prelude
  import opened GlmLexer
  import opened GlmParser

  datatype Listing = Listing(entries: seq<Entry>)
  datatype Entry = Attr(key: string, value: string) | Kid(guid: nat, body: Listing)

  /** The string entries from the i-th on, as a dict. */
  function AttrsFrom(l: Listing, i: nat): map<string, string>
    requires i <= |l.entries|
    decreases |l.entries| - i
  {
    if i == |l.entries| then map[]
    else match l.entries[i]
      case Attr(k, v) => map[k := v] + AttrsFrom(l, i + 1)
      case Kid(_, _) => AttrsFrom(l, i + 1)
  }

  function Attrs(l: Listing): map<string, string> {
    AttrsFrom(l, 0)
  }

  // ------------------------------------------------------------------ printing

  const NAME_LIMIT := 62

  /** One key and value as _gatherKeyValues prints them. */
  function PrintAttr(key: string, value: string): string {
    if key == "comment" then value + "\n"
    else if (key == "name" || key == "parent") && |value| > NAME_LIMIT then
      "\t" + key + " " + value[..NAME_LIMIT] + "; // truncated from " + value + "\n"
    else Line(key, value)
  }

  function Line(key: string, value: string): string {
    "\t" + key + " " + value + ";\n"
  }

  function Block(header: string, body: string): string {
    header + " {\n" + body + "};\n"
  }

  /** _gatherKeyValues from the i-th entry on. */
  function GatherFrom(l: Listing, i: nat, keyToAvoid: string): Result<string>
    requires i <= |l.entries|
    decreases l, |l.entries| - i
  {
    if i == |l.entries| then Success("")
    else
      var text :- match l.entries[i]
                  case Kid(_, body) => DictToString(body)
                  case Attr(k, v) => Success(if k == keyToAvoid then "" else PrintAttr(k, v));
      var more :- GatherFrom(l, i + 1, keyToAvoid);
      Success(text + more)
  }

  function Lookup(a: map<string, string>, key: string): Result<string> {
    if key in a then Success(a[key]) else Failure
  }

  /** _dictToString; Failure for a missing key or a dict of no known kind. */
  function DictToString(l: Listing): Result<string>
    decreases l, |l.entries| + 1
  {
    var a := Attrs(l);
    if "omftype" in a then
      var argument :- Lookup(a, "argument");
      Success(a["omftype"] + " " + argument + ";")
    else if "module" in a then
      var body :- GatherFrom(l, 0, "module");
      Success(Block("module" + " " + a["module"], body))
    else if "clock" in a then
      var timezone :- Lookup(a, "timezone");
      var starttime :- Lookup(a, "starttime");
      var stoptime :- Lookup(a, "stoptime");
      Success(Block("clock", Line("timezone", timezone) + Line("starttime", starttime) + Line("stoptime", stoptime)))
    else if "object" in a && a["object"] == "schedule" then
      var name :- Lookup(a, "name");
      var cron :- Lookup(a, "cron");
      Success("schedule " + name + " {\n" + cron + "\n};\n")
    else if "object" in a then
      var body :- GatherFrom(l, 0, "object");
      Success(Block("object" + " " + a["object"], body))
    else if "omfEmbeddedConfigObject" in a then
      var body :- GatherFrom(l, 0, "omfEmbeddedConfigObject");
      Success(Block(a["omfEmbeddedConfigObject"], body))
    else if "#include" in a then Success("#include \"" + a["#include"] + "\"\n")
    else if "#define" in a then Success("#define " + a["#define"] + "\n")
    else if "#set" in a then Success("#set " + a["#set"] + "\n")
    else Failure
  }

  // ------------------------------------------------------------------ well-formed trees

  ghost predicate IsAttr(key: string, value: string) {
    IsWord(key) && IsPhrase(value) && key != "comment"
  }

  ghost predicate WellFormedFrom(l: Listing, i: nat, keyToAvoid: string)
    requires i <= |l.entries|
    decreases l, |l.entries| - i
  {
    i == |l.entries| ||
    (WellFormedFrom(l, i + 1, keyToAvoid) &&
     match l.entries[i]
     case Kid(_, body) => IsBlock(body)
     case Attr(k, v) => k == keyToAvoid || IsAttr(k, v))
  }

  ghost predicate NoKids(l: Listing) {
    forall e :: e in l.entries ==> e.Attr?
  }

  /** A block names what it is: a module, an object or an embedded configuration with any
      further keys and blocks, or a clock with exactly the three keys that are printed. */
  ghost predicate IsBlock(l: Listing)
    decreases l, |l.entries| + 1
  {
    var a := Attrs(l);
    "omftype" !in a &&
    if "module" in a then IsWord(a["module"]) && WellFormedFrom(l, 0, "module")
    else if "clock" in a then NoKids(l) && IsClock(a)
    else if "object" in a then
      a["object"] != "schedule" && IsWord(a["object"]) && WellFormedFrom(l, 0, "object")
    else
      && "omfEmbeddedConfigObject" in a
      && IsEmbedding(a["omfEmbeddedConfigObject"]) && WellFormedFrom(l, 0, "omfEmbeddedConfigObject")
  }

  ghost predicate IsClock(a: map<string, string>) {
    && a.Keys == {"clock", "timezone", "starttime", "stoptime"} && a["clock"] == "clock"
    && IsPhrase(a["timezone"]) && IsPhrase(a["starttime"]) && IsPhrase(a["stoptime"])
  }

  /** `configuration object line_configuration`, say. */
  ghost predicate IsEmbedding(s: string) {
    IsPhrase(s) && |SplitWords(s, "")| >= 3 && SplitWords(s, "")[0] != "schedule"
  }

  /** A setting or module without a body. */
  ghost predicate IsDirective(l: Listing) {
    var a := Attrs(l);
    NoKids(l) && a.Keys == {"omftype", "argument"} && IsWord(a["omftype"]) && IsPhrase(a["argument"])
  }

  ghost predicate IsSchedule(l: Listing) {
    var a := Attrs(l);
    && NoKids(l) && a.Keys == {"object", "name", "cron"} && a["object"] == "schedule"
    && IsWord(a["name"]) && NoSlashes(a["cron"]) && Close !in Tokens(Clean(a["cron"]), "")
  }

  // ------------------------------------------------------------------ names that are cut

  /** A name that is too long is printed up to the limit, with the whole of it in a comment; a
      blank at the end of what is printed does not come back. */
  function CutValue(key: string, value: string): string {
    if (key == "name" || key == "parent") && |value| > NAME_LIMIT then
      (if value[NAME_LIMIT - 1] == ' ' then value[..NAME_LIMIT - 1] else value[..NAME_LIMIT])
    else value
  }

  function CutEntry(e: Entry): (r: Entry)
    ensures r.Kid? == e.Kid?
    decreases e
  {
    match e
    case Attr(k, v) => Attr(k, CutValue(k, v))
    case Kid(g, body) => Kid(g, Cut(body))
  }

  /** The listing with all names cut that are too long, on every level. */
  function Cut(l: Listing): (r: Listing)
    ensures |r.entries| == |l.entries|
    decreases l
  {
    Listing(seq(|l.entries|, i requires 0 <= i < |l.entries| => CutEntry(l.entries[i])))
  }

  function CutAttrs(a: map<string, string>): map<string, string> {
    map k | k in a :: CutValue(k, a[k])
  }

  lemma {:induction false} AttrsOfCut(l: Listing, i: nat)
    requires i <= |l.entries|
    ensures AttrsFrom(Cut(l), i) == CutAttrs(AttrsFrom(l, i))
    decreases |l.entries| - i
  {
    hide CutValue;
    if i < |l.entries| {
      AttrsOfCut(l, i + 1);
      assert Cut(l).entries[i] == CutEntry(l.entries[i]);
    }
  }

  lemma {:induction false} PrefixWords(s: string, n: nat, word: string)
    requires 0 < n <= |s| && s[n - 1] != ' ' && forall w :: w in SplitWords(s, word) ==> w != ""
    ensures forall w :: w in SplitWords(s[..n], word) ==> w != ""
  {
    var t := s[..n];
    assert t[0] == s[0] && t[1..] == s[1..][..n - 1];
    if s[0] == ' ' {
      assert SplitWords(s, word) == [word] + SplitWords(s[1..], "");
      assert word in SplitWords(s, word);
      forall w | w in SplitWords(s[1..], "")
        ensures w != ""
      {
        assert w in SplitWords(s, word);
      }
      PrefixWords(s[1..], n - 1, "");
    } else if n > 1 {
      assert s[1..][n - 2] == s[n - 1] && SplitWords(s, word) == SplitWords(s[1..], word + [s[0]]);
      PrefixWords(s[1..], n - 1, word + [s[0]]);
    } else {
      assert t[1..] == "" && SplitWords(t, word) == [word + [s[0]]];
    }
  }

  lemma {:induction false} NoBlankPairs(s: string, k: nat, word: string)
    requires k + 1 < |s| && s[k] == ' ' && s[k + 1] == ' '
    ensures "" in SplitWords(s, word)
  {
    if k == 0 {
      assert s[1..][0] == ' ';
      assert SplitWords(s[1..], "")[0] == "";
      assert SplitWords(s, word)[1] == "";
    } else if s[0] == ' ' {
      NoBlankPairs(s[1..], k - 1, "");
      var i :| 0 <= i < |SplitWords(s[1..], "")| && SplitWords(s[1..], "")[i] == "";
      assert SplitWords(s, word)[i + 1] == "";
    } else {
      NoBlankPairs(s[1..], k - 1, word + [s[0]]);
    }
  }

  lemma {:induction false} PrefixPhrase(s: string, n: nat)
    requires IsPhrase(s) && 0 < n <= |s| && s[n - 1] != ' '
    ensures IsPhrase(s[..n])
  {
    hide SplitWords;
    PrefixWords(s, n, "");
    assert forall c :: c in s[..n] ==> c in s;
  }

  lemma {:induction false} CutIsPhrase(key: string, value: string)
    requires IsPhrase(value)
    ensures IsPhrase(CutValue(key, value))
  {
    hide IsPhrase;
    if (key == "name" || key == "parent") && |value| > NAME_LIMIT {
      if value[NAME_LIMIT - 1] == ' ' {
        PhraseHasNoPairs(value, NAME_LIMIT - 2);
        PrefixPhrase(value, NAME_LIMIT - 1);
      } else {
        PrefixPhrase(value, NAME_LIMIT);
      }
    }
  }

  lemma {:induction false} PhraseHasNoPairs(s: string, k: nat)
    requires IsPhrase(s) && k + 1 < |s| && s[k + 1] == ' '
    ensures s[k] != ' '
  {
    hide SplitWords;
    if s[k] == ' ' { NoBlankPairs(s, k, ""); }
  }

  lemma {:induction false} CutWellFormed(l: Listing, i: nat, keyToAvoid: string)
    requires i <= |l.entries| && WellFormedFrom(l, i, keyToAvoid)
    ensures WellFormedFrom(Cut(l), i, keyToAvoid)
    decreases l, |l.entries| - i
  {
    hide CutValue, IsPhrase, IsWord;
    if i < |l.entries| {
      CutWellFormed(l, i + 1, keyToAvoid);
      assert Cut(l).entries[i] == CutEntry(l.entries[i]);
      match l.entries[i] {
        case Kid(_, body) => CutIsBlock(body);
        case Attr(k, v) => if IsPhrase(v) { CutIsPhrase(k, v); }
      }
    }
  }

  /** What heads a block is no name. */
  lemma {:induction false} CutHeads(l: Listing)
    ensures Attrs(Cut(l)).Keys == Attrs(l).Keys
    ensures forall k :: k in Attrs(l) && k != "name" && k != "parent" ==> Attrs(Cut(l))[k] == Attrs(l)[k]
  {
    AttrsOfCut(l, 0);
  }

  lemma {:induction false} CutIsBlock(l: Listing)
    requires IsBlock(l)
    ensures IsBlock(Cut(l))
    decreases l, |l.entries| + 1
  {
    hide WellFormedFrom, IsWord, IsPhrase, IsEmbedding, CutValue;
    var a := Attrs(l);
    CutHeads(l);
    if "module" in a {
      CutWellFormed(l, 0, "module");
    } else if "clock" in a {
      CutNoKids(l);
    } else if "object" in a {
      CutWellFormed(l, 0, "object");
    } else {
      CutWellFormed(l, 0, "omfEmbeddedConfigObject");
    }
  }

  lemma {:induction false} CutNoKids(l: Listing)
    requires NoKids(l)
    ensures NoKids(Cut(l))
  {
    hide CutValue;
    forall e | e in Cut(l).entries
      ensures e.Attr?
    {
      var i :| 0 <= i < |l.entries| && Cut(l).entries[i] == e;
      assert l.entries[i] in l.entries;
    }
  }

  // ------------------------------------------------------------------ what comes back

  /** The number of dicts of a listing. */
  function Count(l: Listing): nat
    decreases l, |l.entries| + 1
  {
    1 + CountFrom(l, 0)
  }

  function CountFrom(l: Listing, i: nat): nat
    requires i <= |l.entries|
    decreases l, |l.entries| - i
  {
    if i == |l.entries| then 0
    else (match l.entries[i] case Attr(_, _) => 0 case Kid(_, body) => Count(body)) + CountFrom(l, i + 1)
  }

  /** The dict with its guids renumbered in preorder, the first child getting g. */
  function Renumber(l: Listing, g: nat): Dict
    decreases l, |l.entries| + 1
  {
    Dict(Attrs(l), KidsFrom(l, 0, g))
  }

  function KidsFrom(l: Listing, i: nat, g: nat): map<nat, Dict>
    requires i <= |l.entries|
    decreases l, |l.entries| - i
  {
    if i == |l.entries| then map[]
    else match l.entries[i]
      case Attr(_, _) => KidsFrom(l, i + 1, g)
      case Kid(_, body) => map[g := Renumber(body, g + 1)] + KidsFrom(l, i + 1, g + Count(body))
  }

  // ------------------------------------------------------------------ the printed tokens

  /** The tokens of a key and value. */
  function AttrTokens(key: string, value: string): seq<Token> {
    [Word(key)] + WordTokens(SplitWords(value, "")) + [Semi]
  }

  function EntryTokens(l: Listing, i: nat, keyToAvoid: string): seq<Token>
    requires i <= |l.entries|
    decreases l, |l.entries| - i
  {
    if i == |l.entries| then []
    else
      (match l.entries[i]
       case Attr(k, v) => if k == keyToAvoid then [] else AttrTokens(k, v)
       case Kid(_, body) => BlockTokens(body)) + EntryTokens(l, i + 1, keyToAvoid)
  }

  function BlockTokens(l: Listing): seq<Token>
    decreases l, |l.entries| + 1
  {
    var a := Attrs(l);
    if "module" in a then Braced([Word("module"), Word(a["module"])], EntryTokens(l, 0, "module"))
    else if "clock" in a then ClockTokens(a)
    else if "object" in a then Braced([Word("object"), Word(a["object"])], EntryTokens(l, 0, "object"))
    else if "omfEmbeddedConfigObject" in a then
      Braced(WordTokens(SplitWords(a["omfEmbeddedConfigObject"], "")), EntryTokens(l, 0, "omfEmbeddedConfigObject"))
    else []
  }

  /** A clock is printed with three of its keys, in this order. */
  function ClockTokens(a: map<string, string>): seq<Token> {
    if "timezone" in a && "starttime" in a && "stoptime" in a then
      Braced([Word("clock")], AttrTokens("timezone", a["timezone"]) + AttrTokens("starttime", a["starttime"])
                              + AttrTokens("stoptime", a["stoptime"]))
    else []
  }

  function Braced(header: seq<Token>, body: seq<Token>): seq<Token> {
    header + [Open] + body + [Close, Semi]
  }

  // ------------------------------------------------------------------ lexing what is printed

  lemma {:induction false} TwoWords(a: string, b: string)
    requires IsWord(a) && IsPhrase(b)
    ensures IsPhrase(a + " " + b) && SplitWords(a + " " + b, "") == [a] + SplitWords(b, "")
  {
    SplitAfterWord(a, b, "");
    assert "" + a == a;
    NoSlashesConcat(a, " ");
    NoSlashesConcat(a + " ", b);
    forall w | w in SplitWords(a + " " + b, "")
      ensures w != ""
    {
      assert w == a || w in SplitWords(b, "");
    }
  }

  lemma {:induction false} SplitAfterWord(a: string, b: string, word: string)
    requires forall c :: c in a ==> IsWordChar(c)
    ensures SplitWords(a + " " + b, word) == [word + a] + SplitWords(b, "")
  {
    var s := a + " " + b;
    if a == "" {
      assert s[0] == ' ' && s[1..] == b && word + a == word;
    } else {
      assert s[0] == a[0] && s[1..] == a[1..] + " " + b && a == [a[0]] + a[1..] && a[0] in a;
      SplitAfterWord(a[1..], b, word + [a[0]]);
      assert word + [a[0]] + a[1..] == word + a;
    }
  }

  lemma {:induction false} PhraseLexes(p: string)
    requires IsPhrase(p)
    ensures Clean(p) == p && Tokens(p, "") == WordTokens(SplitWords(p, "")) && p != ""
  {
    CleanPhrase(p);
    PhraseTokens(p, "");
    assert SplitWords("", "") == [""];
    assert "" in [""];
  }

  /** A phrase, a delimiter and a line end. */
  lemma {:induction false} PhraseSegment(p: string, d: char, end: string)
    requires IsPhrase(p) && (d == ';' || d == '{') && (end == "" || end == "\n")
    ensures IsSegment(p + [d] + end, WordTokens(SplitWords(p, "")) + DelimiterToken(d))
  {
    PhraseLexes(p);
    CleanConcat(p, [d]);
    CleanConcat(p + [d], end);
    assert Clean([d]) == [d] && Clean(end) == "";
    assert p + [d] + "" == p + [d];
    TokensAround(p, d, "", "");
    NoSlashesConcat(p, [d]);
    NoSlashesConcat(p + [d], end);
    assert Clean(p + [d] + end) == p + [d];
  }

  /** Leading blanks and tabs and a blank before the brace leave no tokens. */
  lemma {:induction false} BlankSegment(c: char)
    requires c == ' ' || c == '\t' || c == '\n'
    ensures IsSegment([c], [])
  {
    assert Clean([c]) == if c == '\n' then "" else " ";
    assert Tokens(" ", "") == [];
  }

  lemma {:induction false} HeaderSegment(p: string)
    requires IsPhrase(p)
    ensures IsSegment(p + " {\n", WordTokens(SplitWords(p, "")) + [Open])
  {
    PhraseLexes(p);
    var s := p + " {\n";
    CleanConcat(p, " {\n");
    assert Clean(" {\n") == " {" by { assert Clean("{\n") == "{"; }
    assert p + " {" == p + [' '] + "{";
    TokensAround(p, ' ', "{", "");
    assert Tokens("{", "") == [Open];
    NoSlashesConcat(p, " {\n");
  }

  lemma {:induction false} FooterSegment()
    ensures IsSegment("};\n", [Close, Semi])
  {
    assert Clean("};\n") == "};" by { assert Clean(";\n") == ";"; }
    assert Tokens("};", "") == [Close, Semi] by { assert Tokens(";", "") == [Semi]; }
  }

  lemma {:induction false} LineParts(key: string, value: string)
    ensures Line(key, value) == "\t" + ((key + " " + value) + [';'] + "\n")
  {
    assert ";\n" == [';'] + "\n";
  }

  lemma {:induction false} PhraseTokensParts(p: string, key: string, value: string)
    requires SplitWords(p, "") == [key] + SplitWords(value, "")
    ensures WordTokens(SplitWords(p, "")) + [Semi] == AttrTokens(key, value)
  {
    assert WordTokens([key] + SplitWords(value, "")) == [Word(key)] + WordTokens(SplitWords(value, ""));
  }

  lemma {:induction false} LineSegment(key: string, value: string)
    requires IsWord(key) && IsPhrase(value)
    ensures IsSegment(Line(key, value), AttrTokens(key, value))
  {
    TwoWords(key, value);
    var p := key + " " + value;
    PhraseSegment(p, ';', "\n");
    BlankSegment('\t');
    var ts := AttrTokens(key, value);
    PhraseTokensParts(p, key, value);
    SegmentsConcat(['\t'], [], p + [';'] + "\n", ts);
    LineParts(key, value);
    assert [] + ts == ts;
  }

  lemma {:induction false} PaddedSegment(p: string, pad: string)
    requires IsPhrase(p) && (pad == "" || pad == " ")
    ensures IsSegment(p + pad + "; ", WordTokens(SplitWords(p, "")) + [Semi])
  {
    hide SplitWords;
    PhraseLexes(p);
    var end := pad + "; ";
    assert p + pad + "; " == p + end;
    CleanConcat(p, end);
    assert Clean(end) == end by { CleanPad(pad); }
    assert Tokens(" ", "") == [];
    assert "; "[1..] == " " && Tokens("; ", "") == [Semi];
    if pad == "" {
      assert p + end == p + [';'] + " ";
      TokensAround(p, ';', " ", "");
    } else {
      assert p + end == p + [' '] + "; ";
      TokensAround(p, ' ', "; ", "");
    }
    NoSlashesConcat(p, end);
  }

  lemma CleanPad(pad: string)
    requires pad == "" || pad == " "
    ensures Clean(pad + "; ") == pad + "; "
  {
    assert Clean("; ") == "; " by { assert "; "[1..] == " " && Clean(" ") == " "; }
    assert (" " + "; ")[1..] == "; ";
    assert "" + "; " == "; ";
  }

  lemma {:induction false} SemiLineParts(key: string, cut: string, pad: string)
    requires IsWord(key) && IsPhrase(cut) && (pad == "" || pad == " ")
    ensures IsSegment("\t" + key + " " + cut + pad + "; ", AttrTokens(key, cut))
  {
    hide SplitWords, IsSegment;
    TwoWords(key, cut);
    var p := key + " " + cut;
    PaddedSegment(p, pad);
    BlankSegment('\t');
    var ts := AttrTokens(key, cut);
    PhraseTokensParts(p, key, cut);
    SegmentsConcat(['\t'], [], p + pad + "; ", ts);
    assert [] + ts == ts;
    assert ['\t'] + (p + pad + "; ") == "\t" + key + " " + cut + pad + "; ";
  }

  lemma {:induction false} PhraseIsOneLine(s: string)
    requires IsPhrase(s)
    ensures '\n' !in " truncated from " + s
  {
  }

  /** A line with the words up to the limit, and a comment. */
  lemma {:induction false} CutLine(key: string, cut: string, pad: string, value: string)
    requires IsWord(key) && IsPhrase(cut) && (pad == "" || pad == " ") && IsPhrase(value)
    ensures Lexes("\t" + key + " " + cut + pad + "; " + "//" + (" truncated from " + value) + "\n", AttrTokens(key, cut))
  {
    hide Lexes, IsSegment, SplitWords, IsWord, IsPhrase, AttrTokens;
    SemiLineParts(key, cut, pad);
    PhraseIsOneLine(value);
    CommentedLine("\t" + key + " " + cut + pad + "; ", AttrTokens(key, cut), " truncated from " + value);
  }

  lemma {:induction false} CutText(key: string, front: string, cut: string, pad: string, value: string)
    requires front == cut + pad
    ensures "\t" + key + " " + front + "; // truncated from " + value + "\n"
         == "\t" + key + " " + cut + pad + "; " + "//" + (" truncated from " + value) + "\n"
  {
    assert "; // truncated from " == "; " + "//" + " truncated from ";
  }

  /** One key and value, whatever the length of a name: with a name too long, the words up to the
      limit, the comment leaving nothing. */
  lemma {:induction false} AttrPrints(key: string, value: string)
    requires IsAttr(key, value)
    ensures Lexes(PrintAttr(key, value), AttrTokens(key, CutValue(key, value)))
  {
    hide Lexes, IsSegment, SplitWords, IsWord, IsPhrase, AttrTokens;
    if (key == "name" || key == "parent") && |value| > NAME_LIMIT {
      CutIsPhrase(key, value);
      var cut := CutValue(key, value);
      var pad := if value[NAME_LIMIT - 1] == ' ' then " " else "";
      assert value[..NAME_LIMIT] == cut + pad;
      CutLine(key, cut, pad, value);
      CutText(key, value[..NAME_LIMIT], cut, pad, value);
    } else {
      LineSegment(key, value);
      SegmentLexes(Line(key, value), AttrTokens(key, value));
    }
  }

  /** The value of the key `comment` is printed as it is, so one that is a comment does not come back. */
  lemma {:induction false} CommentKeyIsLost(c: string)
    requires '\n' !in c
    ensures Lexes(PrintAttr("comment", "//" + c), [])
  {
    hide Tokenize, Straddles;
    assert LeavesOpen("", "") && "" == "" + "";
    forall b
      ensures Tokenize(PrintAttr("comment", "//" + c) + b) == [] + Tokenize(b)
    {
      NothingStraddles(b);
      CommentIsNothing("", c, b);
      assert "" + "//" + c + "\n" + b == PrintAttr("comment", "//" + c) + b && "" + b == b;
    }
  }

  lemma NothingStraddles(b: string)
    ensures !Straddles("", b)
  {
  }

  /** Header, body and footer of a block. */
  lemma {:induction false} BracedPrints(header: string, body: string, ts: seq<Token>)
    requires IsPhrase(header) && Lexes(body, ts)
    ensures Lexes(Block(header, body), Braced(WordTokens(SplitWords(header, "")), ts))
  {
    hide Lexes, IsSegment, SplitWords;
    HeaderSegment(header);
    FooterSegment();
    var h := WordTokens(SplitWords(header, "")) + [Open];
    SegmentLexes(header + " {\n", h);
    SegmentLexes("};\n", [Close, Semi]);
    LexesConcat(header + " {\n", h, body, ts);
    LexesConcat(header + " {\n" + body, h + ts, "};\n", [Close, Semi]);
    assert h + ts + [Close, Semi] == Braced(WordTokens(SplitWords(header, "")), ts);
  }

  lemma {:induction false} IsLiteralWord(w: string)
    requires w == "module" || w == "object" || w == "clock" || w == "schedule"
             || w == "timezone" || w == "starttime" || w == "stoptime"
    ensures IsWord(w)
  {
  }

  lemma {:induction false} KeywordHeader(keyword: string, name: string)
    requires IsWord(keyword) && IsWord(name)
    ensures IsPhrase(keyword + " " + name)
    ensures WordTokens(SplitWords(keyword + " " + name, "")) == [Word(keyword), Word(name)]
  {
    WordIsPhrase(name);
    TwoWords(keyword, name);
  }

  /** The three lines of a clock, with its keys as variables. */
  lemma {:induction false} ThreeLines(kx: string, x: string, ky: string, y: string, kz: string, z: string)
    requires IsWord(kx) && IsPhrase(x) && IsWord(ky) && IsPhrase(y) && IsWord(kz) && IsPhrase(z)
    ensures IsSegment(Line(kx, x) + Line(ky, y) + Line(kz, z), AttrTokens(kx, x) + AttrTokens(ky, y) + AttrTokens(kz, z))
  {
    LineSegment(kx, x);
    LineSegment(ky, y);
    LineSegment(kz, z);
    SegmentsConcat(Line(kx, x), AttrTokens(kx, x), Line(ky, y), AttrTokens(ky, y));
    SegmentsConcat(Line(kx, x) + Line(ky, y), AttrTokens(kx, x) + AttrTokens(ky, y), Line(kz, z), AttrTokens(kz, z));
  }

  lemma {:induction false} ClockPrints(a: map<string, string>)
    requires IsClock(a)
    ensures Lexes(Block("clock", Line("timezone", a["timezone"]) + Line("starttime", a["starttime"]) + Line("stoptime", a["stoptime"])),
                  ClockTokens(a))
  {
    hide Lexes, IsSegment, IsPhrase, IsWord;
    IsLiteralWord("clock");
    IsLiteralWord("timezone");
    IsLiteralWord("starttime");
    IsLiteralWord("stoptime");
    ThreeLines("timezone", a["timezone"], "starttime", a["starttime"], "stoptime", a["stoptime"]);
    WordIsPhrase("clock");
    assert WordTokens(["clock"]) == [Word("clock")];
    var body := Line("timezone", a["timezone"]) + Line("starttime", a["starttime"]) + Line("stoptime", a["stoptime"]);
    var ts := AttrTokens("timezone", a["timezone"]) + AttrTokens("starttime", a["starttime"]) + AttrTokens("stoptime", a["stoptime"]);
    SegmentLexes(body, ts);
    BracedPrints("clock", body, ts);
  }

  /** `module x` or `object x`, with anything between the braces. */
  lemma {:induction false} KeywordPrints(keyword: string, name: string, body: string, ts: seq<Token>)
    requires keyword == "module" || keyword == "object"
    requires IsWord(name) && Lexes(body, ts)
    ensures Lexes(Block(keyword + " " + name, body), Braced([Word(keyword), Word(name)], ts))
  {
    hide Lexes;
    IsLiteralWord(keyword);
    KeywordHeader(keyword, name);
    BracedPrints(keyword + " " + name, body, ts);
  }

  /** What the printer prints of a block lexes to the tokens of the block with its names cut,
      whatever the order of its keys. */
  lemma {:induction false} BlockPrints(l: Listing)
    requires IsBlock(l)
    ensures DictToString(l).Success? && Lexes(DictToString(l).value, BlockTokens(Cut(l)))
    decreases l, |l.entries| + 1
  {
    hide Lexes, EntryTokens, GatherFrom, Attrs, WellFormedFrom, ClockTokens, Line, Block, IsWord, Cut;
    var a, c := Attrs(l), Cut(l);
    CutHeads(l);
    if "module" in a {
      EntriesPrint(l, 0, "module");
      KeywordPrints("module", a["module"], GatherFrom(l, 0, "module").value, EntryTokens(c, 0, "module"));
    } else if "clock" in a {
      ClockPrints(a);
      assert Attrs(c) == a;
    } else if "object" in a {
      EntriesPrint(l, 0, "object");
      KeywordPrints("object", a["object"], GatherFrom(l, 0, "object").value, EntryTokens(c, 0, "object"));
    } else {
      EntriesPrint(l, 0, "omfEmbeddedConfigObject");
      BracedPrints(a["omfEmbeddedConfigObject"], GatherFrom(l, 0, "omfEmbeddedConfigObject").value,
                   EntryTokens(c, 0, "omfEmbeddedConfigObject"));
    }
  }

  lemma {:induction false} EntriesPrint(l: Listing, i: nat, keyToAvoid: string)
    requires i <= |l.entries| && WellFormedFrom(l, i, keyToAvoid)
    ensures GatherFrom(l, i, keyToAvoid).Success?
    ensures Lexes(GatherFrom(l, i, keyToAvoid).value, EntryTokens(Cut(l), i, keyToAvoid))
    decreases l, |l.entries| - i
  {
    hide Lexes, IsAttr, IsBlock, PrintAttr, CutValue, AttrTokens, BlockTokens, DictToString;
    if i == |l.entries| {
      NothingLexes();
    } else {
      EntriesPrint(l, i + 1, keyToAvoid);
      var more, ts := GatherFrom(l, i + 1, keyToAvoid).value, EntryTokens(Cut(l), i + 1, keyToAvoid);
      assert Cut(l).entries[i] == CutEntry(l.entries[i]);
      match l.entries[i] {
        case Kid(_, body) =>
          BlockPrints(body);
          LexesConcat(DictToString(body).value, BlockTokens(Cut(body)), more, ts);
        case Attr(k, v) =>
          if k == keyToAvoid {
            assert "" + more == more && [] + ts == ts;
          } else {
            AttrPrints(k, v);
            LexesConcat(PrintAttr(k, v), AttrTokens(k, CutValue(k, v)), more, ts);
          }
      }
    }
  }

  lemma NothingLexes()
    ensures Lexes("", [])
  {
    forall b
      ensures Tokenize("" + b) == [] + Tokenize(b)
    {
      assert "" + b == b;
    }
  }

  // ------------------------------------------------------------------ parsing what is printed

  lemma {:induction false} TakeWords(words: seq<string>, end: Token, rest: seq<Token>)
    requires !end.Word?
    ensures TakeStatement(WordTokens(words) + [end] + rest) == Some(Statement(words, end, rest))
  {
    var ts := WordTokens(words) + [end] + rest;
    if words == [] {
      assert ts == [end] + rest;
    } else {
      TakeWords(words[1..], end, rest);
      assert ts[0] == Word(words[0]) && ts[1..] == WordTokens(words[1..]) + [end] + rest;
      assert [words[0]] + words[1..] == words;
    }
  }

  /** Before a closing brace a semicolon changes nothing, also where the parser raises. */
  lemma {:induction false} SemicolonIsOptional(st: State, words: seq<string>, rest: seq<Token>, with: State)
    requires Valid(st) && st.tokens == WordTokens(words) + [Close] + rest
    requires with == st.(tokens := WordTokens(words) + [Semi] + ([Close] + rest))
    ensures Run(st) == Run(with)
  {
    hide Run, ListToString, GetAt, SetAt;
    TakeWords(words, Close, rest);
    TakeWords(words, Semi, [Close] + rest);
    RunStep(st);
    RunStep(with);
    if Step(with).Success? {
      var mid := Step(with).value;
      assert mid.tokens == WordTokens([]) + [Close] + rest;
      TakeWords([], Close, rest);
      RunStep(mid);
      CloseLater(st, words, rest);
    }
  }

  lemma {:induction false} CloseLater(st: State, words: seq<string>, rest: seq<Token>)
    requires Valid(st)
    ensures var with := Process(st.(tokens := [Close] + rest), words, Semi);
            with.Success? ==> Process(st.(tokens := rest), words, Close) == Process(with.value.(tokens := rest), [], Close)
  {
    hide ListToString, GetAt, SetAt;
  }

  lemma {:induction false} SetWhatIsThere(d: Dict, path: seq<nat>)
    requires IsPath(d, path)
    ensures SetAt(d, path, GetAt(d, path)) == d
  {
    if path != [] { SetWhatIsThere(d.kids[path[0]], path[1..]); }
  }

  /** The state in which the current leaf has become leaf and used guids have been given out. */
  function After(st: State, rest: seq<Token>, leaf: Dict, used: nat): (r: State)
    requires Valid(st)
    ensures Valid(r)
  {
    State(rest, SetAt(st.tree, st.stack, leaf), st.guid + used, st.stack)
  }

  lemma {:induction false} AfterAfter(st: State, rest: seq<Token>, leaf: Dict, used: nat, rest': seq<Token>, leaf': Dict, used': nat)
    requires Valid(st)
    ensures var mid := After(st, rest, leaf, used);
            GetAt(mid.tree, mid.stack) == leaf && After(mid, rest', leaf', used') == After(st, rest', leaf', used + used')
  {
    GetAfterSet(st.tree, st.stack, leaf);
    SetAfterSet(st.tree, st.stack, leaf, leaf');
  }

  /** One key and value inside a block. */
  lemma {:induction false} RunAttr(st: State, key: string, value: string, rest: seq<Token>, fin: State)
    requires Valid(st) && st.stack != [] && st.tokens == AttrTokens(key, value) + rest
    requires fin == After(st, rest, Put(GetAt(st.tree, st.stack), key, value), 0)
    ensures Run(st) == Run(fin)
  {
    var words := SplitWords(value, "");
    JoinSplits(value, "");
    assert WordTokens([key] + words) == [Word(key)] + WordTokens(words);
    assert st.tokens == WordTokens([key] + words) + [Semi] + rest;
    TakeWords([key] + words, Semi, rest);
    assert ([key] + words)[1..] == words && "" + value == value;
    assert ListToString([key] + words) == Success(value);
    assert Process(st.(tokens := rest), [key] + words, Semi) == Success(fin);
  }

  /** The current leaf with the entries from the i-th on added, one key left out. */
  function Grown(d: Dict, l: Listing, i: nat, keyToAvoid: string, g: nat): Dict
    requires i <= |l.entries|
  {
    Dict(d.attrs + (AttrsFrom(l, i) - {keyToAvoid}), d.kids + KidsFrom(l, i, g))
  }

  lemma {:induction false} FirstPut<K, V>(m: map<K, V>, k: K, v: V, more: map<K, V>, avoid: set<K>)
    ensures m + (map[k := v] + more) == m[k := v] + more
    ensures k in avoid ==> (map[k := v] + more) - avoid == more - avoid
    ensures k !in avoid ==> (map[k := v] + more) - avoid == map[k := v] + (more - avoid)
  {
  }

  lemma {:induction false} GrownByAttr(d: Dict, l: Listing, i: nat, k: string, v: string, keyToAvoid: string, g: nat)
    requires i < |l.entries| && l.entries[i] == Attr(k, v)
    ensures Grown(d, l, i, keyToAvoid, g) == Grown(if k == keyToAvoid then d else Put(d, k, v), l, i + 1, keyToAvoid, g)
  {
    FirstPut(d.attrs, k, v, AttrsFrom(l, i + 1), {keyToAvoid});
    FirstPut(d.attrs, k, v, AttrsFrom(l, i + 1) - {keyToAvoid}, {});
  }

  lemma {:induction false} GrownByKid(d: Dict, l: Listing, i: nat, keyToAvoid: string, g: nat)
    requires i < |l.entries| && l.entries[i].Kid?
    ensures var body := l.entries[i].body;
            Grown(d, l, i, keyToAvoid, g) == Grown(PutKid(d, g, Renumber(body, g + 1)), l, i + 1, keyToAvoid, g + Count(body))
  {
    var body := l.entries[i].body;
    var more := KidsFrom(l, i + 1, g + Count(body));
    FirstPut(d.kids, g, Renumber(body, g + 1), more, {});
    assert KidsFrom(l, i, g) == map[g := Renumber(body, g + 1)] + more;
  }

  lemma {:induction false} Regroup<T>(a: seq<T>, b: seq<T>, c: seq<T>)
    ensures (a + b) + c == a + (b + c)
  {
  }

  lemma {:induction false} AfterParts(st: State, rest: seq<Token>, leaf: Dict, used: nat)
    requires Valid(st)
    ensures var mid := After(st, rest, leaf, used); mid.tokens == rest && mid.guid == st.guid + used && mid.stack == st.stack
  {
    hide SetAt;
  }

  lemma {:induction false} KidComesFirst(l: Listing, i: nat, keyToAvoid: string)
    requires i < |l.entries| && l.entries[i].Kid?
    ensures EntryTokens(l, i, keyToAvoid) == BlockTokens(l.entries[i].body) + EntryTokens(l, i + 1, keyToAvoid)
    ensures CountFrom(l, i) == Count(l.entries[i].body) + CountFrom(l, i + 1)
  {
    hide BlockTokens, Count;
  }

  lemma {:induction false} AttrComesFirst(l: Listing, i: nat, k: string, v: string, keyToAvoid: string)
    requires i < |l.entries| && l.entries[i] == Attr(k, v) && k != keyToAvoid
    ensures EntryTokens(l, i, keyToAvoid) == AttrTokens(k, v) + EntryTokens(l, i + 1, keyToAvoid)
    ensures CountFrom(l, i) == CountFrom(l, i + 1)
  {
    hide AttrTokens;
  }

  /** What the rest of the entries has to do once the i-th, a block, has been parsed. */
  lemma {:induction false} AfterKid(l: Listing, i: nat, keyToAvoid: string, st: State, rest: seq<Token>, mid: State, fin: State)
    requires i < |l.entries| && l.entries[i].Kid?
    requires Valid(st) && st.tokens == EntryTokens(l, i, keyToAvoid) + rest
    requires var body := l.entries[i].body;
             mid == After(st, EntryTokens(l, i + 1, keyToAvoid) + rest,
                          PutKid(GetAt(st.tree, st.stack), st.guid, Renumber(body, st.guid + 1)), Count(body))
    requires fin == After(st, rest, Grown(GetAt(st.tree, st.stack), l, i, keyToAvoid, st.guid), CountFrom(l, i))
    ensures st.tokens == BlockTokens(l.entries[i].body) + mid.tokens
    ensures fin == After(mid, rest, Grown(GetAt(mid.tree, mid.stack), l, i + 1, keyToAvoid, mid.guid), CountFrom(l, i + 1))
  {
    hide Renumber, Count, CountFrom, KidsFrom, AttrsFrom, Grown, After, EntryTokens, BlockTokens, GetAt, SetAt;
    var body := l.entries[i].body;
    var leaf := PutKid(GetAt(st.tree, st.stack), st.guid, Renumber(body, st.guid + 1));
    KidComesFirst(l, i, keyToAvoid);
    AfterParts(st, EntryTokens(l, i + 1, keyToAvoid) + rest, leaf, Count(body));
    Regroup(BlockTokens(body), EntryTokens(l, i + 1, keyToAvoid), rest);
    GrownByKid(GetAt(st.tree, st.stack), l, i, keyToAvoid, st.guid);
    AfterAfter(st, mid.tokens, leaf, Count(body), rest, Grown(leaf, l, i + 1, keyToAvoid, mid.guid), CountFrom(l, i + 1));
  }

  /** The same for a key that is printed. */
  lemma {:induction false} AfterAttr(l: Listing, i: nat, k: string, v: string, keyToAvoid: string, st: State, rest: seq<Token>,
                                     mid: State, fin: State)
    requires i < |l.entries| && l.entries[i] == Attr(k, v) && k != keyToAvoid
    requires Valid(st) && st.tokens == EntryTokens(l, i, keyToAvoid) + rest
    requires mid == After(st, EntryTokens(l, i + 1, keyToAvoid) + rest, Put(GetAt(st.tree, st.stack), k, v), 0)
    requires fin == After(st, rest, Grown(GetAt(st.tree, st.stack), l, i, keyToAvoid, st.guid), CountFrom(l, i))
    ensures st.tokens == AttrTokens(k, v) + mid.tokens
    ensures fin == After(mid, rest, Grown(GetAt(mid.tree, mid.stack), l, i + 1, keyToAvoid, mid.guid), CountFrom(l, i + 1))
  {
    hide Renumber, CountFrom, KidsFrom, AttrsFrom, Grown, After, EntryTokens, AttrTokens, GetAt, SetAt;
    var leaf := Put(GetAt(st.tree, st.stack), k, v);
    AttrComesFirst(l, i, k, v, keyToAvoid);
    AfterParts(st, EntryTokens(l, i + 1, keyToAvoid) + rest, leaf, 0);
    Regroup(AttrTokens(k, v), EntryTokens(l, i + 1, keyToAvoid), rest);
    GrownByAttr(GetAt(st.tree, st.stack), l, i, k, v, keyToAvoid, st.guid);
    AfterAfter(st, mid.tokens, leaf, 0, rest, Grown(leaf, l, i + 1, keyToAvoid, mid.guid), CountFrom(l, i + 1));
  }

  /** The key of the header is not printed again. */
  lemma {:induction false} AfterHeader(l: Listing, i: nat, v: string, keyToAvoid: string, st: State)
    requires i < |l.entries| && l.entries[i] == Attr(keyToAvoid, v) && Valid(st)
    ensures EntryTokens(l, i, keyToAvoid) == EntryTokens(l, i + 1, keyToAvoid) && CountFrom(l, i) == CountFrom(l, i + 1)
    ensures var d := GetAt(st.tree, st.stack); Grown(d, l, i, keyToAvoid, st.guid) == Grown(d, l, i + 1, keyToAvoid, st.guid)
  {
    GrownByAttr(GetAt(st.tree, st.stack), l, i, keyToAvoid, v, keyToAvoid, st.guid);
  }

  lemma {:induction false} AfterNothing(l: Listing, keyToAvoid: string, st: State, rest: seq<Token>, fin: State)
    requires Valid(st) && st.tokens == EntryTokens(l, |l.entries|, keyToAvoid) + rest
    requires fin == After(st, rest, Grown(GetAt(st.tree, st.stack), l, |l.entries|, keyToAvoid, st.guid), CountFrom(l, |l.entries|))
    ensures st == fin
  {
    var d := GetAt(st.tree, st.stack);
    assert Grown(d, l, |l.entries|, keyToAvoid, st.guid) == d;
    SetWhatIsThere(st.tree, st.stack);
    assert [] + rest == rest;
  }

  lemma {:induction false} RunEntries(l: Listing, i: nat, keyToAvoid: string, st: State, rest: seq<Token>, fin: State)
    requires i <= |l.entries| && WellFormedFrom(l, i, keyToAvoid)
    requires Valid(st) && st.stack != [] && st.tokens == EntryTokens(l, i, keyToAvoid) + rest
    requires fin == After(st, rest, Grown(GetAt(st.tree, st.stack), l, i, keyToAvoid, st.guid), CountFrom(l, i))
    ensures Run(st) == Run(fin)
    decreases l, |l.entries| - i
  {
    var d := GetAt(st.tree, st.stack);
    if i == |l.entries| {
      AfterNothing(l, keyToAvoid, st, rest, fin);
    } else {
      var more := EntryTokens(l, i + 1, keyToAvoid) + rest;
      match l.entries[i] {
        case Kid(_, body) =>
          var mid := After(st, more, PutKid(d, st.guid, Renumber(body, st.guid + 1)), Count(body));
          AfterKid(l, i, keyToAvoid, st, rest, mid, fin);
          RunBlock(body, st, more, mid);
          RunEntries(l, i + 1, keyToAvoid, mid, rest, fin);
        case Attr(k, v) =>
          if k == keyToAvoid {
            AfterHeader(l, i, v, keyToAvoid, st);
            RunEntries(l, i + 1, keyToAvoid, st, rest, fin);
          } else {
            var mid := After(st, more, Put(d, k, v), 0);
            AfterAttr(l, i, k, v, keyToAvoid, st, rest, mid, fin);
            RunAttr(st, k, v, more, mid);
            RunEntries(l, i + 1, keyToAvoid, mid, rest, fin);
          }
      }
    }
  }

  /** Inside the new block, with its header stored. */
  function Opened(st: State, rest: seq<Token>, key: string, value: string): (r: State)
    requires Valid(st)
    ensures Valid(r) && r.stack == st.stack + [st.guid]
  {
    AddAttr(OpenBlock(st.(tokens := rest)), key, value)
  }

  lemma {:induction false} OpenedLeaf(st: State, rest: seq<Token>, key: string, value: string, leaf: Dict)
    requires Valid(st)
    ensures var r := Opened(st, rest, key, value);
            && r.guid == st.guid + 1 && r.tokens == rest
            && GetAt(r.tree, r.stack) == Dict(map[key := value], map[])
            && SetAt(r.tree, r.stack, leaf) == SetAt(st.tree, st.stack, PutKid(GetAt(st.tree, st.stack), st.guid, leaf))
  {
    var d := GetAt(st.tree, st.stack);
    var inner := OpenBlock(st.(tokens := rest));
    GetAfterSet(inner.tree, inner.stack, Put(EMPTY, key, value));
    SetAfterSet(inner.tree, inner.stack, Put(EMPTY, key, value), leaf);
    GetAfterSet(st.tree, st.stack, PutKid(d, st.guid, EMPTY));
    SetBelow(inner.tree, st.stack, st.guid, leaf);
    SetAfterSet(st.tree, st.stack, PutKid(d, st.guid, EMPTY), PutKid(d, st.guid, leaf));
    assert PutKid(PutKid(d, st.guid, EMPTY), st.guid, leaf) == PutKid(d, st.guid, leaf);
  }

  /** The statements that open a block and the attribute each stores. */
  predicate Heads(words: seq<string>, key: string, value: string) {
    && words != [] && words[0] != "schedule"
    && if |words| < 3 then key == words[0] && value == words[|words| - 1]
       else key == "omfEmbeddedConfigObject" && value == Join(words)
  }

  lemma {:induction false} RunOpen(st: State, words: seq<string>, key: string, value: string, rest: seq<Token>)
    requires Valid(st) && Heads(words, key, value) && st.tokens == WordTokens(words) + [Open] + rest
    ensures Run(st) == Run(Opened(st, rest, key, value))
  {
    TakeWords(words, Open, rest);
    assert Process(st.(tokens := rest), words, Open) == Success(Opened(st, rest, key, value));
  }

  /** The brace pops the guid, and the semicolon after it is a statement without words. */
  lemma {:induction false} RunClose(st: State, rest: seq<Token>, fin: State)
    requires Valid(st) && st.stack != [] && st.tokens == [Close, Semi] + rest
    requires fin == st.(tokens := rest, stack := st.stack[..|st.stack| - 1])
    ensures Valid(fin) && Run(st) == Run(fin)
  {
    PopPath(st.tree, st.stack);
    assert st.tokens == WordTokens([]) + [Close] + ([Semi] + rest);
    TakeWords([], Close, [Semi] + rest);
    var mid := fin.(tokens := [Semi] + rest);
    assert Step(st) == Success(mid);
    assert mid.tokens == WordTokens([]) + [Semi] + rest;
    TakeWords([], Semi, rest);
    assert Step(mid) == Success(fin);
  }

  lemma {:induction false} BracedParts(header: seq<Token>, body: seq<Token>, rest: seq<Token>)
    ensures Braced(header, body) + rest == header + [Open] + (body + ([Close, Semi] + rest))
  {
  }

  /** A block whose body makes leaf of the new dict adds leaf under the next guid. */
  lemma {:induction false} RunBraced(st: State, words: seq<string>, key: string, value: string, body: seq<Token>,
                                     leaf: Dict, used: nat, rest: seq<Token>, inner: State, done: State, fin: State)
    requires Valid(st) && Heads(words, key, value) && st.tokens == Braced(WordTokens(words), body) + rest
    requires inner == Opened(st, body + ([Close, Semi] + rest), key, value)
    requires done == After(inner, [Close, Semi] + rest, leaf, used) && Run(inner) == Run(done)
    requires fin == After(st, rest, PutKid(GetAt(st.tree, st.stack), st.guid, leaf), 1 + used)
    ensures Run(st) == Run(fin)
  {
    var tail := body + ([Close, Semi] + rest);
    BracedParts(WordTokens(words), body, rest);
    RunOpen(st, words, key, value, tail);
    OpenedLeaf(st, tail, key, value, leaf);
    assert done.stack[..|done.stack| - 1] == st.stack;
    assert fin == done.(tokens := rest, stack := done.stack[..|done.stack| - 1]);
    RunClose(done, rest, fin);
  }

  lemma {:induction false} HeaderIsKept(l: Listing, key: string, value: string, g: nat)
    requires key in Attrs(l) && Attrs(l)[key] == value
    ensures Grown(Dict(map[key := value], map[]), l, 0, key, g) == Renumber(l, g)
  {
    assert map[key := value] + (Attrs(l) - {key}) == Attrs(l);
    assert map[] + KidsFrom(l, 0, g) == KidsFrom(l, 0, g);
  }

  /** A block with its entries. */
  lemma {:induction false} RunBlockOf(l: Listing, words: seq<string>, key: string, value: string, st: State, rest: seq<Token>, fin: State)
    requires Valid(st) && Heads(words, key, value) && WellFormedFrom(l, 0, key) && key in Attrs(l) && Attrs(l)[key] == value
    requires st.tokens == Braced(WordTokens(words), EntryTokens(l, 0, key)) + rest
    requires fin == After(st, rest, PutKid(GetAt(st.tree, st.stack), st.guid, Renumber(l, st.guid + 1)), Count(l))
    ensures Run(st) == Run(fin)
    decreases l, |l.entries| + 1, 0
  {
    hide Run, WellFormedFrom, EntryTokens, Attrs, KidsFrom, Opened, SetAt, GetAt, Grown;
    var tail := [Close, Semi] + rest;
    var body := EntryTokens(l, 0, key);
    var inner := Opened(st, body + tail, key, value);
    OpenedLeaf(st, body + tail, key, value, EMPTY);
    HeaderIsKept(l, key, value, st.guid + 1);
    var done := After(inner, tail, Renumber(l, st.guid + 1), CountFrom(l, 0));
    RunEntries(l, 0, key, inner, tail, done);
    RunBraced(st, words, key, value, body, Renumber(l, st.guid + 1), CountFrom(l, 0), rest, inner, done, fin);
  }

  lemma {:induction false} NoKidsCount(l: Listing, i: nat, g: nat)
    requires NoKids(l) && i <= |l.entries|
    ensures CountFrom(l, i) == 0 && KidsFrom(l, i, g) == map[]
    decreases |l.entries| - i
  {
    if i < |l.entries| {
      assert l.entries[i] in l.entries;
      NoKidsCount(l, i + 1, g);
    }
  }

  lemma {:induction false} RunThreeLines(st: State, kx: string, x: string, ky: string, y: string, kz: string, z: string,
                                         rest: seq<Token>, fin: State)
    requires Valid(st) && st.stack != []
    requires st.tokens == AttrTokens(kx, x) + AttrTokens(ky, y) + AttrTokens(kz, z) + rest
    requires fin == After(st, rest, Put(Put(Put(GetAt(st.tree, st.stack), kx, x), ky, y), kz, z), 0)
    ensures Run(st) == Run(fin)
  {
    var dx := Put(GetAt(st.tree, st.stack), kx, x);
    var dy := Put(dx, ky, y);
    var rz := AttrTokens(kz, z) + rest;
    var ry := AttrTokens(ky, y) + rz;
    assert st.tokens == AttrTokens(kx, x) + ry;
    var sx := After(st, ry, dx, 0);
    var sy := After(st, rz, dy, 0);
    AfterAfter(st, ry, dx, 0, rz, dy, 0);
    AfterAfter(st, rz, dy, 0, rest, Put(dy, kz, z), 0);
    RunAttr(st, kx, x, ry, sx);
    RunAttr(sx, ky, y, rz, sy);
    RunAttr(sy, kz, z, rest, fin);
  }

  lemma {:induction false} ClockIsKept(a: map<string, string>, kx: string, ky: string, kz: string, key: string)
    requires a.Keys == {key, kx, ky, kz}
    ensures Put(Put(Put(Dict(map[key := a[key]], map[]), kx, a[kx]), ky, a[ky]), kz, a[kz]).attrs == a
  {
  }

  lemma {:induction false} RunClock(l: Listing, st: State, rest: seq<Token>, fin: State)
    requires Valid(st) && NoKids(l) && IsClock(Attrs(l)) && st.tokens == ClockTokens(Attrs(l)) + rest
    requires fin == After(st, rest, PutKid(GetAt(st.tree, st.stack), st.guid, Renumber(l, st.guid + 1)), Count(l))
    ensures Run(st) == Run(fin)
  {
    var a := Attrs(l);
    var x, y, z := a["timezone"], a["starttime"], a["stoptime"];
    ClockIsKept(a, "timezone", "starttime", "stoptime", "clock");
    NoKidsCount(l, 0, st.guid + 1);
    RunClockOf(st, "clock", "clock", "timezone", x, "starttime", y, "stoptime", z, Renumber(l, st.guid + 1), rest, fin);
  }

  lemma {:induction false} RunClockOf(st: State, key: string, value: string, kx: string, x: string, ky: string, y: string,
                                      kz: string, z: string, leaf: Dict, rest: seq<Token>, fin: State)
    requires Valid(st) && Heads([key], key, value)
    requires st.tokens == Braced([Word(key)], AttrTokens(kx, x) + AttrTokens(ky, y) + AttrTokens(kz, z)) + rest
    requires leaf == Put(Put(Put(Dict(map[key := value], map[]), kx, x), ky, y), kz, z)
    requires fin == After(st, rest, PutKid(GetAt(st.tree, st.stack), st.guid, leaf), 1)
    ensures Run(st) == Run(fin)
  {
    var tail := [Close, Semi] + rest;
    var body := AttrTokens(kx, x) + AttrTokens(ky, y) + AttrTokens(kz, z);
    var inner := Opened(st, body + tail, key, value);
    OpenedLeaf(st, body + tail, key, value, EMPTY);
    var done := After(inner, tail, leaf, 0);
    RunThreeLines(inner, kx, x, ky, y, kz, z, tail, done);
    assert WordTokens([key]) == [Word(key)];
    RunBraced(st, [key], key, value, body, leaf, 0, rest, inner, done, fin);
  }

  /** The tokens of a block are parsed to the block, renumbered in preorder. */
  lemma {:induction false} RunBlock(l: Listing, st: State, rest: seq<Token>, fin: State)
    requires Valid(st) && IsBlock(l) && st.tokens == BlockTokens(l) + rest
    requires fin == After(st, rest, PutKid(GetAt(st.tree, st.stack), st.guid, Renumber(l, st.guid + 1)), Count(l))
    ensures Run(st) == Run(fin)
    decreases l, |l.entries| + 1, 1
  {
    var a := Attrs(l);
    if "module" in a {
      assert WordTokens(["module", a["module"]]) == [Word("module"), Word(a["module"])];
      RunBlockOf(l, ["module", a["module"]], "module", a["module"], st, rest, fin);
    } else if "clock" in a {
      RunClock(l, st, rest, fin);
    } else if "object" in a {
      assert WordTokens(["object", a["object"]]) == [Word("object"), Word(a["object"])];
      RunBlockOf(l, ["object", a["object"]], "object", a["object"], st, rest, fin);
    } else {
      var embedding := a["omfEmbeddedConfigObject"];
      JoinSplits(embedding, "");
      RunBlockOf(l, SplitWords(embedding, ""), "omfEmbeddedConfigObject", embedding, st, rest, fin);
    }
  }
}
