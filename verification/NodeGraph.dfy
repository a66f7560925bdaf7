/** The annotated network graph: nodes seen in packet rows and the colours they take.

    The row loop recolours nodes in place with a cascade of conditions.  What it computes is
    a join: every row contributes colours to its two nodes, and a node ends with the least
    colour above its saved colour and all contributions.  So neither the order of the rows
    nor seeing them again makes a difference. */
module NodeGraph {
  import opened Prelude

  /** Sources are blue, destinations orange, nodes that are both purple, MultiSpeak nodes
      green, nodes with alerts red. */
  datatype Color = Blue | Orange | Purple | Green | Red

  datatype Row = Row(src: string, dst: string)

  // ------------------------------------------------------------------ the order of colours

  function Rank(c: Color): nat {
    match c case Blue => 0 case Orange => 0 case Purple => 1 case Green => 2 case Red => 3
  }

  predicate AtMost(a: Color, b: Color) {
    a == b || Rank(a) < Rank(b)
  }

  function Join(a: Color, b: Color): (c: Color)
    ensures AtMost(a, c) && AtMost(b, c)
    ensures forall d :: AtMost(a, d) && AtMost(b, d) ==> AtMost(c, d)
  {
    if Rank(a) < Rank(b) then b
    else if Rank(b) < Rank(a) || a == b then a
    else Purple
  }

  /** None stands for a node that is not there yet, below every colour. */
  function JoinTo(known: Option<Color>, c: Color): Color {
    match known case None => c case Some(k) => Join(k, c)
  }

  // ------------------------------------------------------------------ what a row contributes

  datatype Findings = Findings(multispeak: set<string>, alerts: set<string>)

  predicate Contributes(f: Findings, row: Row, n: string, c: Color) {
    (n == row.src || n == row.dst) &&
    match c
    case Blue => n == row.src
    case Orange => n == row.dst
    case Green => n in f.multispeak
    case Red => n in f.alerts
    case Purple => false
  }

  /** The colour of n is the least above the saved one and everything the rows contribute. */
  ghost predicate IsColor(saved: map<string, Color>, f: Findings, rows: seq<Row>, n: string, c: Color) {
    && (n in saved ==> AtMost(saved[n], c))
    && (forall row, d :: row in rows && Contributes(f, row, n, d) ==> AtMost(d, c))
    && forall u :: (n in saved ==> AtMost(saved[n], u))
                   && (forall row, d :: row in rows && Contributes(f, row, n, d) ==> AtMost(d, u))
                   ==> AtMost(c, u)
  }

  ghost predicate IsSeen(saved: map<string, Color>, rows: seq<Row>, n: string) {
    n in saved || exists row :: row in rows && (n == row.src || n == row.dst)
  }

  /** The colours after the rows: those seen, each with its least colour. */
  ghost predicate IsColoring(saved: map<string, Color>, f: Findings, rows: seq<Row>, colors: map<string, Color>) {
    && (forall n :: n in colors <==> IsSeen(saved, rows, n))
    && (forall n :: n in colors ==> IsColor(saved, f, rows, n, colors[n]))
  }

  /** There is only one such colouring, and it depends on nothing but which rows there were. */
  lemma ColoringIsUnique(saved: map<string, Color>, f: Findings, rows: seq<Row>, rows': seq<Row>,
                         c: map<string, Color>, c': map<string, Color>)
    requires IsColoring(saved, f, rows, c) && IsColoring(saved, f, rows', c')
    requires forall row :: row in rows <==> row in rows'
    ensures c == c'
  {
    forall n | n in c
      ensures n in c' && c[n] == c'[n]
    {
      assert IsSeen(saved, rows', n);
      assert IsColor(saved, f, rows, n, c[n]) && IsColor(saved, f, rows', n, c'[n]);
      assert AtMost(c[n], c'[n]) && AtMost(c'[n], c[n]);
    }
    forall n | n in c'
      ensures n in c
    {
      assert IsSeen(saved, rows, n);
    }
  }

  /** Running the same rows over their own result adds nothing. */
  lemma ReplayChangesNothing(saved: map<string, Color>, f: Findings, rows: seq<Row>,
                             c: map<string, Color>, c': map<string, Color>)
    requires IsColoring(saved, f, rows, c) && IsColoring(c, f, rows, c')
    ensures c' == c
  {
    forall n
      ensures n in c' <==> n in c
    {
      assert IsSeen(c, rows, n) <==> IsSeen(saved, rows, n);
    }
    forall n | n in c
      ensures c'[n] == c[n]
    {
      assert IsColor(saved, f, rows, n, c[n]) && IsColor(c, f, rows, n, c'[n]);
      assert AtMost(c[n], c'[n]) && AtMost(c'[n], c[n]);
    }
  }

  // ------------------------------------------------------------------ one row

  function Contribution(f: Findings, row: Row, n: string): Color
    requires n == row.src || n == row.dst
  {
    if n in f.alerts then Red
    else if n in f.multispeak then Green
    else if row.src == row.dst then Purple
    else if n == row.src then Blue
    else Orange
  }

  function Known(colors: map<string, Color>, n: string): Option<Color> {
    if n in colors then Some(colors[n]) else None
  }

  /** The colours after one row. */
  function Recolored(colors: map<string, Color>, f: Findings, row: Row): map<string, Color> {
    colors[row.src := JoinTo(Known(colors, row.src), Contribution(f, row, row.src))]
          [row.dst := JoinTo(Known(colors, row.dst), Contribution(f, row, row.dst))]
  }

  lemma ContributionIsLeast(f: Findings, row: Row, n: string, u: Color)
    requires n == row.src || n == row.dst
    ensures AtMost(Contribution(f, row, n), u) <==> forall d :: Contributes(f, row, n, d) ==> AtMost(d, u)
  {
    assert Contributes(f, row, n, Blue) <==> n == row.src;
    assert Contributes(f, row, n, Orange) <==> n == row.dst;
    assert Contributes(f, row, n, Green) <==> n in f.multispeak;
    assert Contributes(f, row, n, Red) <==> n in f.alerts;
  }

  lemma RecoloredIsColoring(saved: map<string, Color>, f: Findings, rows: seq<Row>, row: Row, colors: map<string, Color>)
    requires IsColoring(saved, f, rows, colors)
    ensures IsColoring(saved, f, rows + [row], Recolored(colors, f, row))
  {
    var r := Recolored(colors, f, row);
    forall n
      ensures n in r <==> IsSeen(saved, rows + [row], n)
    {
      if IsSeen(saved, rows, n) && n !in saved {
        var x :| x in rows && (n == x.src || n == x.dst);
        assert x in rows + [row];
      }
      assert row in rows + [row];
    }
    forall n | n in r
      ensures IsColor(saved, f, rows + [row], n, r[n])
    {
      RecoloredNode(saved, f, rows, row, colors, n);
    }
  }

  lemma RecoloredNode(saved: map<string, Color>, f: Findings, rows: seq<Row>, row: Row,
                      colors: map<string, Color>, n: string)
    requires IsColoring(saved, f, rows, colors) && n in Recolored(colors, f, row)
    ensures IsColor(saved, f, rows + [row], n, Recolored(colors, f, row)[n])
  {
    var c := Recolored(colors, f, row)[n];
    if n == row.src || n == row.dst {
      ContributionIsLeast(f, row, n, c);
    }
    if n !in colors {
      assert !IsSeen(saved, rows, n);
    }
    forall x, d | x in rows + [row] && Contributes(f, x, n, d)
      ensures AtMost(d, c)
    {
      if x in rows { assert IsSeen(saved, rows, n) && AtMost(d, colors[n]); }
    }
    forall u | (n in saved ==> AtMost(saved[n], u))
               && forall x, d :: x in rows + [row] && Contributes(f, x, n, d) ==> AtMost(d, u)
      ensures AtMost(c, u)
    {
      assert forall x :: x in rows ==> x in rows + [row];
      assert n in colors ==> AtMost(colors[n], u);
      assert row in rows + [row];
      if n == row.src || n == row.dst { ContributionIsLeast(f, row, n, u); }
    }
  }

  // ------------------------------------------------------------------ the cascade of the source

  /** New nodes start blue as a source, orange as a destination. */
  function Met(colors: map<string, Color>, row: Row): map<string, Color> {
    var c := if row.src in colors then colors else colors[row.src := Blue];
    if row.dst in c then c else c[row.dst := Orange]
  }

  function Flagged(f: Findings, n: string, c: Color): Color {
    if n in f.alerts then Red else if n in f.multispeak && c != Red then Green else c
  }

  function Linked(row: Row, n: string, c: Color): Color {
    if (n == row.src && c == Orange) || (n == row.dst && c == Blue) then Purple else c
  }

  lemma CascadeIsJoin(colors: map<string, Color>, f: Findings, row: Row, n: string)
    requires n in Met(colors, row)
    ensures n in Recolored(colors, f, row)
    ensures var c := Met(colors, row)[n];
            Linked(row, n, if n == row.src || n == row.dst then Flagged(f, n, c) else c) == Recolored(colors, f, row)[n]
  {
  }

  lemma SameNodes(colors: map<string, Color>, f: Findings, row: Row)
    ensures Met(colors, row).Keys == Recolored(colors, f, row).Keys
  {
  }

  lemma StartsAsSaved(saved: map<string, Color>, f: Findings)
    ensures forall rows: seq<Row> :: rows == [] ==> IsColoring(saved, f, rows, saved) && Ends(rows) == {}
  {
  }

  function Ends(rows: seq<Row>): set<(string, string)> {
    set row | row in rows :: (row.src, row.dst)
  }

  lemma EndsOfLonger(rows: seq<Row>, row: Row)
    ensures Ends(rows + [row]) == Ends(rows) + {(row.src, row.dst)}
  {
    var all := rows + [row];
    assert forall x :: x in all <==> x in rows || x == row;
  }

  // ------------------------------------------------------------------ the graph

  class ANGNode {
    const name: string
    var color: Color

    constructor (name: string, color: Color)
      ensures this.name == name && this.color == color
    {
      this.name, this.color := name, color;
    }
  }

  class ANGCompleteGraph {
    var links: set<(string, string)>
    var nodes: map<string, ANGNode>

    /** Nodes are filed under their names, so different entries are different objects. */
    ghost predicate Valid()
      reads this
    {
      forall n :: n in nodes ==> nodes[n].name == n
    }

    ghost function Colors(): map<string, Color>
      reads this, nodes.Values
    {
      map n | n in nodes :: nodes[n].color
    }

    /** Lines 103-108. */
    method AddNode(name: string, color: Color) returns (node: ANGNode)
      requires Valid()
      modifies this`nodes
      ensures Valid() && name in nodes && nodes[name] == node
      ensures name in old(nodes) ==> nodes == old(nodes)
      ensures name !in old(nodes) ==> fresh(node) && node.color == color && nodes == old(nodes)[name := node]
    {
      if name in nodes {
        return nodes[name];
      }
      node := new ANGNode(name, color);
      nodes := nodes[name := node];
    }

    /** Lines 115-131; the exception is for nodes that are not in the graph. */
    method AddLink(srcName: string, dstName: string) returns (raised: bool)
      requires Valid()
      modifies this`links, nodes.Values
      ensures raised <==> srcName !in nodes || dstName !in nodes
      ensures raised ==> links == old(links) && Colors() == old(Colors())
      ensures !raised ==>
                && links == old(links) + {(srcName, dstName)}
                && forall n :: n in nodes ==>
                     nodes[n].color ==
                       var c := old(nodes[n].color);
                       if (n == srcName && c == Orange) || (n == dstName && c == Blue) then Purple else c
    {
      if srcName !in nodes || dstName !in nodes {
        return true;
      }
      var srcNode := nodes[srcName];
      if srcNode.color != Green && srcNode.color != Red && srcNode.color == Orange {
        srcNode.color := Purple;
      }
      var dstNode := nodes[dstName];
      if dstNode.color != Green && dstNode.color != Red && dstNode.color == Blue {
        dstNode.color := Purple;
      }
      if (srcName, dstName) !in links {
        links := links + {(srcName, dstName)};
      }
      return false;
    }

    /** Lines 244-245. */
    method MeetNodes(row: Row)
      requires Valid()
      modifies this`nodes
      ensures Valid() && row.src in nodes && row.dst in nodes
      ensures forall n :: n in nodes && n !in old(nodes) ==> fresh(nodes[n])
      ensures forall n :: n in old(nodes) ==> n in nodes && nodes[n] == old(nodes)[n]
      ensures Colors() == Met(old(Colors()), row)
    {
      var srcNode := AddNode(row.src, Blue);
      var dstNode := AddNode(row.dst, Orange);
    }

    /** Lines 247-273: the findings about the two nodes. */
    method Flag(row: Row, f: Findings)
      requires Valid() && row.src in nodes && row.dst in nodes
      modifies nodes.Values
      ensures forall n :: n in nodes ==>
                nodes[n].color == if n == row.src || n == row.dst then Flagged(f, n, old(nodes[n].color)) else old(nodes[n].color)
    {
      var srcNode, dstNode := nodes[row.src], nodes[row.dst];
      if row.src in f.multispeak {
        if srcNode.color != Red {
          srcNode.color := Green;
        }
      }
      if row.dst in f.multispeak {
        if dstNode.color != Red {
          dstNode.color := Green;
        }
      }
      if row.src in f.alerts {
        srcNode.color := Red;
      }
      if row.dst in f.alerts && dstNode.color != Red {
        dstNode.color := Red;
      }
    }

    /** Lines 232-279: one packet row. */
    method ProcessRow(row: Row, f: Findings) returns (raised: bool)
      requires Valid()
      modifies this, nodes.Values
      ensures Valid() && !raised
      ensures forall n :: n in nodes && n !in old(nodes) ==> fresh(nodes[n])
      ensures forall n :: n in old(nodes) ==> n in nodes && nodes[n] == old(nodes)[n]
      ensures Colors() == Recolored(old(Colors()), f, row)
      ensures links == old(links) + {(row.src, row.dst)}
    {
      hide Flagged, Recolored, Met;
      ghost var colors := Colors();
      MeetNodes(row);
      Flag(row, f);
      raised := AddLink(row.src, row.dst);
      SameNodes(colors, f, row);
      forall n | n in nodes
        ensures nodes[n].color == Recolored(colors, f, row)[n]
      {
        CascadeIsJoin(colors, f, row, n);
      }
    }

    /** The row loop of getGraph: one pass over the rows, in their order. */
    method ProcessRows(rows: seq<Row>, f: Findings)
      requires Valid()
      modifies this, nodes.Values
      ensures Valid()
      ensures IsColoring(old(Colors()), f, rows, Colors())
      ensures links == old(links) + Ends(rows)
    {
      hide IsColoring, Recolored, Ends;
      ghost var saved := Colors();
      StartsAsSaved(saved, f);
      for i := 0 to |rows|
        invariant Valid()
        invariant forall n :: n in nodes && n !in old(nodes) ==> fresh(nodes[n])
        invariant forall n :: n in old(nodes) ==> n in nodes && nodes[n] == old(nodes)[n]
        invariant IsColoring(saved, f, rows[..i], Colors())
        invariant links == old(links) + Ends(rows[..i])
      {
        ghost var before := Colors();
        var raised := ProcessRow(rows[i], f);
        RecoloredIsColoring(saved, f, rows[..i], rows[i], before);
        assert rows[..i + 1] == rows[..i] + [rows[i]];
        EndsOfLonger(rows[..i], rows[i]);
      }
      assert rows[..|rows|] == rows;
    }
  }
}
