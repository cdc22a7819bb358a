/** What the generated files mean: their text determines the documents they came from, as far as
    the Core can see them. */
module Layouts {
  import Order
  import opened Configuration

  /** A name that cannot break out of its line. */
  predicate Clean(s: string)
  {
    '\n' !in s && '\t' !in s
  }

  // ---------- lines ----------

  function Text(lines: seq<string>): string
  {
    if lines == [] then "" else Text(lines[..|lines| - 1]) + (lines[|lines| - 1] + "\n")
  }

  /** The first line of a text and what follows it are determined. */
  lemma Peel(a: string, x: string, b: string, y: string)
    requires '\n' !in a && '\n' !in b && a + "\n" + x == b + "\n" + y
    ensures a == b && x == y
  {
    var s, t := a + "\n" + x, b + "\n" + y;
    assert s[|a|] == '\n' && t[|b|] == '\n';
    assert (forall i :: 0 <= i < |a| ==> s[i] == a[i]) && (forall i :: 0 <= i < |b| ==> t[i] == b[i]);
    assert |a| == |b|;
    assert a == s[..|a|] && b == t[..|a|] && x == s[|a| + 1..] && y == t[|a| + 1..];
  }

  lemma StripFront(p: string, a: string, b: string)
    requires p + a == p + b
    ensures a == b
  {
    assert a == (p + a)[|p|..] && b == (p + b)[|p|..];
  }

  lemma {:induction false} TextInParts(a: seq<string>, b: seq<string>)
    ensures Text(a + b) == Text(a) + Text(b)
  {
    if b == [] {
      assert a + b == a;
    } else {
      TextInParts(a, b[..|b| - 1]);
      assert (a + b)[..|a + b| - 1] == a + b[..|b| - 1];
    }
  }

  lemma TextOfOne(line: string)
    ensures Text([line]) == line + "\n"
  {
    assert [line][..0] == [] && Text([line][..0]) == "";
  }

  lemma FirstLine(lines: seq<string>, x: string)
    requires lines != []
    ensures Text(lines) + x == lines[0] + "\n" + (Text(lines[1..]) + x)
  {
    assert lines == [lines[0]] + lines[1..];
    TextInParts([lines[0]], lines[1..]);
    TextOfOne(lines[0]);
  }

  /** A line inside a section. */
  predicate Inner(line: string)
  {
    line != "" && line[0] == '\t' && '\n' !in line
  }

  /** The body of a section, up to its end, is determined line by line. */
  lemma {:induction false} BodyDetermined(a: seq<string>, x: string, b: seq<string>, y: string)
    requires forall i :: 0 <= i < |a| ==> Inner(a[i])
    requires forall i :: 0 <= i < |b| ==> Inner(b[i])
    requires Text(a) + ("end\n" + x) == Text(b) + ("end\n" + y)
    ensures a == b && x == y
    decreases |a|
  {
    FirstCharacter(a, x);
    FirstCharacter(b, y);
    if a == [] && b == [] {
      StripFront("end\n", x, y);
    } else if a != [] && b != [] {
      FirstLine(a, "end\n" + x);
      FirstLine(b, "end\n" + y);
      Peel(a[0], Text(a[1..]) + ("end\n" + x), b[0], Text(b[1..]) + ("end\n" + y));
      BodyDetermined(a[1..], x, b[1..], y);
      assert a == [a[0]] + a[1..] && b == [b[0]] + b[1..];
    }
  }

  lemma FirstCharacter(lines: seq<string>, x: string)
    requires forall i :: 0 <= i < |lines| ==> Inner(lines[i])
    ensures var s := Text(lines) + ("end\n" + x); s != "" && s[0] == if lines == [] then 'e' else '\t'
    ensures lines == [] ==> Text(lines) + ("end\n" + x) == "end\n" + x
  {
    if lines != [] {
      FirstLine(lines, "end\n" + x);
    }
  }

  // ---------- headed blocks ----------

  /** A name with items indented under it. */
  datatype Block = Block(name: string, items: seq<string>)

  function BlockLines(blocks: seq<Block>): seq<string>
  {
    if blocks == [] then []
    else
      var last := blocks[|blocks| - 1];
      BlockLines(blocks[..|blocks| - 1]) + (["\t" + last.name + ":"] + Items(last.items))
  }

  function Items(items: seq<string>): seq<string>
  {
    if items == [] then [] else Items(items[..|items| - 1]) + ["\t\t" + items[|items| - 1]]
  }

  predicate CleanBlock(b: Block)
  {
    Clean(b.name) && forall i :: 0 <= i < |b.items| ==> '\n' !in b.items[i]
  }

  /** The last line of some blocks, and the blocks without it. */
  function LastLine(blocks: seq<Block>): string
    requires blocks != []
  {
    var last := blocks[|blocks| - 1];
    if last.items == [] then "\t" + last.name + ":" else "\t\t" + last.items[|last.items| - 1]
  }

  function WithoutLast(blocks: seq<Block>): seq<Block>
    requires blocks != []
  {
    var front, last := blocks[..|blocks| - 1], blocks[|blocks| - 1];
    if last.items == [] then front else front + [Block(last.name, last.items[..|last.items| - 1])]
  }

  lemma LinesEndInLast(blocks: seq<Block>)
    requires blocks != []
    ensures BlockLines(blocks) == BlockLines(WithoutLast(blocks)) + [LastLine(blocks)]
  {
    var front, last := blocks[..|blocks| - 1], blocks[|blocks| - 1];
    if last.items != [] {
      var shorter := WithoutLast(blocks);
      assert shorter[..|front|] == front && shorter[|front|].items == last.items[..|last.items| - 1];
    }
  }

  /** A header has one tab in front and an item two, so the last line tells what was taken away. */
  lemma LastDetermined(a: seq<Block>, b: seq<Block>)
    requires a != [] && b != [] && CleanBlock(a[|a| - 1]) && CleanBlock(b[|b| - 1])
    requires LastLine(a) == LastLine(b) && WithoutLast(a) == WithoutLast(b)
    ensures a == b
  {
    var l, m := a[|a| - 1], b[|b| - 1];
    HeaderOrItem(l, LastLine(a));
    HeaderOrItem(m, LastLine(b));
    assert a == a[..|a| - 1] + [l] && b == b[..|b| - 1] + [m];
    if l.items == [] {
      assert LastLine(a)[1..|LastLine(a)| - 1] == l.name && LastLine(b)[1..|LastLine(b)| - 1] == m.name;
    } else {
      var k := |WithoutLast(a)| - 1;
      assert WithoutLast(a)[k] == WithoutLast(b)[k] && WithoutLast(a)[..k] == a[..|a| - 1]
          && WithoutLast(b)[..k] == b[..|b| - 1];
      assert LastLine(a)[2..] == l.items[|l.items| - 1] && LastLine(b)[2..] == m.items[|m.items| - 1];
      assert l.items == l.items[..|l.items| - 1] + [l.items[|l.items| - 1]];
      assert m.items == m.items[..|m.items| - 1] + [m.items[|m.items| - 1]];
    }
  }

  ghost predicate AllClean(blocks: seq<Block>)
  {
    forall i :: 0 <= i < |blocks| ==> CleanBlock(blocks[i])
  }

  lemma WithoutLastClean(blocks: seq<Block>)
    requires blocks != [] && AllClean(blocks)
    ensures AllClean(WithoutLast(blocks)) && CleanBlock(blocks[|blocks| - 1])
  {
    forall i | 0 <= i < |WithoutLast(blocks)| ensures CleanBlock(WithoutLast(blocks)[i]) {
      assert CleanBlock(blocks[i]);
    }
  }

  lemma SameLast<T>(p: seq<T>, l: T, q: seq<T>, m: T)
    requires p + [l] == q + [m]
    ensures p == q && l == m
  {
    assert |p| == |q|;
    assert p == (p + [l])[..|p|] && q == (q + [m])[..|p|] && l == (p + [l])[|p|] && m == (q + [m])[|p|];
  }

  /** Blocks are determined by their lines. */
  lemma {:induction false} BlocksDetermined(a: seq<Block>, b: seq<Block>)
    requires AllClean(a) && AllClean(b) && BlockLines(a) == BlockLines(b)
    ensures a == b
    decreases |BlockLines(a)|
  {
    if a != [] { LinesEndInLast(a); }
    if b != [] { LinesEndInLast(b); }
    if a != [] && b != [] {
      WithoutLastClean(a);
      WithoutLastClean(b);
      SameLast(BlockLines(WithoutLast(a)), LastLine(a), BlockLines(WithoutLast(b)), LastLine(b));
      BlocksDetermined(WithoutLast(a), WithoutLast(b));
      LastDetermined(a, b);
    }
  }

  /** Whether a block ends in an item shows in the second character of its last line. */
  lemma HeaderOrItem(b: Block, line: string)
    requires CleanBlock(b)
    requires line == if b.items == [] then "\t" + b.name + ":" else "\t\t" + b.items[|b.items| - 1]
    ensures |line| > 1 && (line[1] == '\t' <==> b.items != [])
  {
    if b.items == [] {
      assert line[1] == if b.name == "" then ':' else b.name[0];
    }
  }

  // ---------- the layout's sections as lines ----------

  function ScreenList(screens: seq<Screen>): seq<string>
  {
    if screens == [] then [] else ScreenList(screens[..|screens| - 1]) + ["\t" + screens[|screens| - 1].name + ":"]
  }

  function EdgeText(e: Edge): string
  {
    e.side.Text() + "(0,100) = " + e.to + "(0,100)"
  }

  function EdgeTexts(edges: seq<Edge>): seq<string>
  {
    if edges == [] then [] else EdgeTexts(edges[..|edges| - 1]) + [EdgeText(edges[|edges| - 1])]
  }

  function GroupBlocks(groups: seq<Group>): seq<Block>
  {
    if groups == [] then []
    else GroupBlocks(groups[..|groups| - 1]) + [Block(groups[|groups| - 1].from, EdgeTexts(groups[|groups| - 1].edges))]
  }

  function AliasBlocks(screens: seq<Screen>): seq<Block>
  {
    if screens == [] then []
    else
      var last := screens[|screens| - 1];
      AliasBlocks(screens[..|screens| - 1]) + if last.aliases == [] then [] else [Block(last.name, last.aliases)]
  }

  lemma TextOfMore(lines: seq<string>, line: string)
    ensures Text(lines + [line]) == Text(lines) + (line + "\n")
  {
    assert (lines + [line])[..|lines|] == lines;
  }

  lemma {:induction false} ScreenLinesAreText(screens: seq<Screen>)
    ensures ScreenLines(screens) == Text(ScreenList(screens))
  {
    if screens != [] {
      var front, last := screens[..|screens| - 1], screens[|screens| - 1];
      ScreenLinesAreText(front);
      TextOfMore(ScreenList(front), "\t" + last.name + ":");
      assert ("\t" + last.name + ":") + "\n" == "\t" + last.name + ":\n";
    }
  }

  lemma {:induction false} IndentedAreText(items: seq<string>)
    ensures IndentedLines(items) == Text(Items(items))
  {
    if items != [] {
      var front, last := items[..|items| - 1], items[|items| - 1];
      IndentedAreText(front);
      TextOfMore(Items(front), "\t\t" + last);
    }
  }

  lemma EdgeLineIsIndented(e: Edge)
    ensures EdgeLine(e) == "\t\t" + EdgeText(e) + "\n"
  {
    var side, to := e.side.Text(), e.to;
    assert "(0,100)" + "\n" == "(0,100)\n";
    assert "\t\t" + (side + "(0,100) = " + to + "(0,100)") + "\n" == "\t\t" + side + "(0,100) = " + to
        + ("(0,100)" + "\n");
  }

  lemma {:induction false} EdgeLinesAreIndented(edges: seq<Edge>)
    ensures EdgeLines(edges) == IndentedLines(EdgeTexts(edges)) && |EdgeTexts(edges)| == |edges|
  {
    if edges != [] {
      var front, last := edges[..|edges| - 1], edges[|edges| - 1];
      EdgeLinesAreIndented(front);
      var texts := EdgeTexts(edges);
      assert texts[..|front|] == EdgeTexts(front) && texts[|front|] == EdgeText(last);
      EdgeLineIsIndented(last);
    }
  }

  lemma BlockText(front: seq<Block>, last: Block)
    ensures Text(BlockLines(front + [last])) == Text(BlockLines(front))
            + ("\t" + last.name + ":\n" + IndentedLines(last.items))
  {
    var header := "\t" + last.name + ":";
    assert (front + [last])[..|front|] == front;
    TextInParts(BlockLines(front), [header] + Items(last.items));
    TextInParts([header], Items(last.items));
    TextOfOne(header);
    IndentedAreText(last.items);
    assert header + "\n" == "\t" + last.name + ":\n";
  }

  lemma {:induction false} GroupLinesAreText(groups: seq<Group>)
    ensures GroupLines(groups) == Text(BlockLines(GroupBlocks(groups)))
  {
    if groups != [] {
      var front, last := groups[..|groups| - 1], groups[|groups| - 1];
      GroupLinesAreText(front);
      EdgeLinesAreIndented(last.edges);
      BlockText(GroupBlocks(front), Block(last.from, EdgeTexts(last.edges)));
    }
  }

  lemma {:induction false} AliasLinesAreText(screens: seq<Screen>)
    ensures AliasLines(screens) == Text(BlockLines(AliasBlocks(screens)))
  {
    if screens != [] {
      var front, last := screens[..|screens| - 1], screens[|screens| - 1];
      AliasLinesAreText(front);
      if last.aliases == [] {
        assert AliasBlocks(screens) == AliasBlocks(front);
        assert AliasLines(front) + "" == AliasLines(front);
      } else {
        BlockText(AliasBlocks(front), Block(last.name, last.aliases));
      }
    }
  }

  // ---------- back from lines to entities ----------

  lemma {:induction false} ScreensDetermined(s: seq<Screen>, t: seq<Screen>)
    requires ScreenList(s) == ScreenList(t)
    ensures |s| == |t| && forall i :: 0 <= i < |s| ==> s[i].name == t[i].name
  {
    if s != [] && t != [] {
      var l, m := s[|s| - 1], t[|t| - 1];
      SameLast(ScreenList(s[..|s| - 1]), "\t" + l.name + ":", ScreenList(t[..|t| - 1]), "\t" + m.name + ":");
      ScreensDetermined(s[..|s| - 1], t[..|t| - 1]);
      assert ("\t" + l.name + ":")[1..1 + |l.name|] == l.name && ("\t" + m.name + ":")[1..1 + |m.name|] == m.name;
    }
  }

  /** The four sides begin with four different letters. */
  lemma EdgeTextDetermined(e: Edge, f: Edge)
    requires EdgeText(e) == EdgeText(f)
    ensures e == f
  {
    assert EdgeText(e)[0] == e.side.Text()[0] && EdgeText(f)[0] == f.side.Text()[0];
    assert e.side == f.side;
    var n := |e.side.Text() + "(0,100) = "|;
    assert e.to == EdgeText(e)[n..|EdgeText(e)| - 7] && f.to == EdgeText(f)[n..|EdgeText(f)| - 7];
  }

  lemma {:induction false} EdgesDetermined(p: seq<Edge>, q: seq<Edge>)
    requires EdgeTexts(p) == EdgeTexts(q)
    ensures p == q
  {
    if p != [] && q != [] {
      var n, m := |p| - 1, |q| - 1;
      SameLast(EdgeTexts(p[..n]), EdgeText(p[n]), EdgeTexts(q[..m]), EdgeText(q[m]));
      EdgeTextDetermined(p[n], q[m]);
      EdgesDetermined(p[..n], q[..m]);
      FrontAndLast(p, q);
    }
  }

  lemma GroupDetermined(g: Group, h: Group)
    requires Block(g.from, EdgeTexts(g.edges)) == Block(h.from, EdgeTexts(h.edges))
    ensures g == h
  {
    EdgesDetermined(g.edges, h.edges);
  }

  lemma {:induction false} GroupsDetermined(p: seq<Group>, q: seq<Group>)
    requires GroupBlocks(p) == GroupBlocks(q)
    ensures p == q
  {
    if p != [] && q != [] {
      var n, m := |p| - 1, |q| - 1;
      var b, d := Block(p[n].from, EdgeTexts(p[n].edges)), Block(q[m].from, EdgeTexts(q[m].edges));
      assert GroupBlocks(p) == GroupBlocks(p[..n]) + [b] && GroupBlocks(q) == GroupBlocks(q[..m]) + [d];
      SameLast(GroupBlocks(p[..n]), b, GroupBlocks(q[..m]), d);
      GroupDetermined(p[n], q[m]);
      GroupsDetermined(p[..n], q[..m]);
      FrontAndLast(p, q);
    }
  }

  lemma FrontAndLast<T>(p: seq<T>, q: seq<T>)
    requires p != [] && q != [] && p[..|p| - 1] == q[..|q| - 1] && p[|p| - 1] == q[|q| - 1]
    ensures p == q
  {
    assert p == p[..|p| - 1] + [p[|p| - 1]] && q == q[..|q| - 1] + [q[|q| - 1]];
  }

  // ---------- clean documents have clean lines ----------

  predicate CleanLayout(c: Config)
  {
    && (forall i :: 0 <= i < |c.screens| ==> CleanScreen(c.screens[i]))
    && (forall i :: 0 <= i < |c.links| ==> Clean(c.links[i].from) && Clean(c.links[i].to))
  }

  predicate CleanScreen(s: Screen)
  {
    Clean(s.name) && forall i :: 0 <= i < |s.aliases| ==> Clean(s.aliases[i])
  }

  predicate CleanGroup(g: Group)
  {
    Clean(g.from) && forall i :: 0 <= i < |g.edges| ==> Clean(g.edges[i].to)
  }

  ghost predicate CleanGroups(groups: seq<Group>)
  {
    forall i :: 0 <= i < |groups| ==> CleanGroup(groups[i])
  }

  lemma {:induction false} PushClean(groups: seq<Group>, key: string, e: Edge)
    requires CleanGroups(groups) && Clean(key) && Clean(e.to)
    ensures CleanGroups(Push(groups, key, e))
  {
    if groups != [] {
      assert CleanGroup(groups[0]);
      if groups[0].from == key {
        assert CleanGroup(Group(key, groups[0].edges + [e]));
      } else {
        PushClean(groups[1..], key, e);
        assert CleanGroup(Group(key, [e]));
      }
    }
  }

  lemma {:induction false} GroupedClean(links: seq<Link>)
    requires forall i :: 0 <= i < |links| ==> Clean(links[i].from) && Clean(links[i].to)
    ensures CleanGroups(Grouped(links))
  {
    if links != [] {
      var front, l := Grouped(links[..|links| - 1]), links[|links| - 1];
      GroupedClean(links[..|links| - 1]);
      PushClean(front, l.from, Edge(l.side, l.to));
      PushClean(Push(front, l.from, Edge(l.side, l.to)), l.to, Edge(l.side.Opposite(), l.from));
    }
  }

  lemma {:induction false} EdgeTextsClean(edges: seq<Edge>)
    requires forall i :: 0 <= i < |edges| ==> Clean(edges[i].to)
    ensures forall i :: 0 <= i < |EdgeTexts(edges)| ==> '\n' !in EdgeTexts(edges)[i]
  {
    if edges != [] {
      EdgeTextsClean(edges[..|edges| - 1]);
      var e := edges[|edges| - 1];
      assert '\n' !in e.side.Text() && '\n' !in "(0,100) = " && '\n' !in "(0,100)" && Clean(e.to);
    }
  }

  lemma {:induction false} GroupBlocksClean(groups: seq<Group>)
    requires CleanGroups(groups)
    ensures AllClean(GroupBlocks(groups))
  {
    if groups != [] {
      GroupBlocksClean(groups[..|groups| - 1]);
      var g := groups[|groups| - 1];
      assert CleanGroup(g);
      EdgeTextsClean(g.edges);
    }
  }

  lemma {:induction false} AliasBlocksClean(screens: seq<Screen>)
    requires forall i :: 0 <= i < |screens| ==> CleanScreen(screens[i])
    ensures AllClean(AliasBlocks(screens))
  {
    if screens != [] {
      AliasBlocksClean(screens[..|screens| - 1]);
      assert CleanScreen(screens[|screens| - 1]);
    }
  }

  ghost predicate AllInner(lines: seq<string>)
  {
    forall i :: 0 <= i < |lines| ==> Inner(lines[i])
  }

  lemma {:induction false} ItemsInner(items: seq<string>)
    requires forall i :: 0 <= i < |items| ==> '\n' !in items[i]
    ensures AllInner(Items(items))
  {
    if items != [] {
      ItemsInner(items[..|items| - 1]);
    }
  }

  lemma {:induction false} BlocksInner(blocks: seq<Block>)
    requires AllClean(blocks)
    ensures AllInner(BlockLines(blocks))
  {
    if blocks != [] {
      BlocksInner(blocks[..|blocks| - 1]);
      var last := blocks[|blocks| - 1];
      assert CleanBlock(last);
      ItemsInner(last.items);
      assert Inner("\t" + last.name + ":");
    }
  }

  lemma {:induction false} ScreensInner(screens: seq<Screen>)
    requires forall i :: 0 <= i < |screens| ==> CleanScreen(screens[i])
    ensures AllInner(ScreenList(screens))
  {
    if screens != [] {
      ScreensInner(screens[..|screens| - 1]);
      assert CleanScreen(screens[|screens| - 1]);
      assert Inner("\t" + screens[|screens| - 1].name + ":");
    }
  }

  // ---------- the whole layout ----------

  /** The tenth character of a section's title tells the sections apart. */
  predicate Opens(s: string, letter: char)
  {
    |s| > 9 && s[9] == letter
  }

  function Section(title: string, present: bool, lines: seq<string>): string
  {
    if present then title + Text(lines) + "end\n\n" else ""
  }

  lemma SectionSplits(title: string, lines: seq<string>, x: string)
    ensures Section(title, true, lines) + x == title + (Text(lines) + ("end\n" + ("\n" + x)))
  {
    assert "end\n\n" == "end\n" + "\n";
    var t := Text(lines);
    assert title + t + ("end\n" + "\n") + x == title + (t + ("end\n" + ("\n" + x)));
  }

  /** Whether a section is there, its lines and what follows it are determined. */
  lemma SectionDetermined(title: string, letter: char, here: bool, a: seq<string>, x: string, there: bool,
      b: seq<string>, y: string)
    requires Opens(title, letter) && AllInner(a) && AllInner(b) && !Opens(x, letter) && !Opens(y, letter)
    requires Section(title, here, a) + x == Section(title, there, b) + y
    ensures here == there && x == y && (here ==> a == b)
  {
    if here {
      SectionSplits(title, a, x);
    } else {
      assert Section(title, here, a) + x == x;
    }
    if there {
      SectionSplits(title, b, y);
    } else {
      assert Section(title, there, b) + y == y;
    }
    if here && there {
      BothPresent(title, a, x, b, y);
    }
  }

  lemma BothPresent(title: string, a: seq<string>, x: string, b: seq<string>, y: string)
    requires AllInner(a) && AllInner(b) && Section(title, true, a) + x == Section(title, true, b) + y
    ensures a == b && x == y
  {
    SectionSplits(title, a, x);
    SectionSplits(title, b, y);
    StripFront(title, Text(a) + ("end\n" + ("\n" + x)), Text(b) + ("end\n" + ("\n" + y)));
    BodyDetermined(a, "\n" + x, b, "\n" + y);
    StripFront("\n", x, y);
  }

  predicate HasAliases(screens: seq<Screen>)
  {
    exists i :: 0 <= i < |screens| && screens[i].aliases != []
  }

  function Links(c: Config): string
  {
    Section("section: links\n", c.links != [], BlockLines(GroupBlocks(Grouped(c.links))))
    + OptionSection(c.options, c.clipboardSharing)
  }

  function Aliases(c: Config): string
  {
    Section("section: aliases\n", HasAliases(c.screens), BlockLines(AliasBlocks(c.screens))) + Links(c)
  }

  /** The layout as sections of lines. */
  lemma ConfIsSections(c: Config)
    ensures SynergyConf(c) == Section(BANNER, true, ScreenList(c.screens)) + Aliases(c)
  {
    ScreenLinesAreText(c.screens);
    AliasLinesAreText(c.screens);
    GroupLinesAreText(Grouped(c.links));
    assert LinkSection(c.links) == Section("section: links\n", c.links != [],
        BlockLines(GroupBlocks(Grouped(c.links))));
    assert AliasSection(c.screens) == Section("section: aliases\n", HasAliases(c.screens),
        BlockLines(AliasBlocks(c.screens)));
  }

  lemma TitlesDiffer(c: Config)
    ensures Opens("section: aliases\n", 'a') && Opens("section: links\n", 'l')
    ensures !Opens(OptionSection(c.options, c.clipboardSharing), 'l') && !Opens(Links(c), 'a')
  {
    var o := OptionSection(c.options, c.clipboardSharing);
    assert o == "" || o[9] == "section: options\n"[9];
    assert c.links == [] ==> Links(c) == o;
    assert c.links != [] ==> Links(c)[9] == "section: links\n"[9];
  }

  lemma CleanLines(c: Config)
    requires CleanLayout(c)
    ensures AllInner(ScreenList(c.screens))
    ensures AllClean(AliasBlocks(c.screens)) && AllInner(BlockLines(AliasBlocks(c.screens)))
    ensures AllClean(GroupBlocks(Grouped(c.links))) && AllInner(BlockLines(GroupBlocks(Grouped(c.links))))
  {
    ScreensInner(c.screens);
    AliasBlocksClean(c.screens);
    BlocksInner(AliasBlocks(c.screens));
    GroupedClean(c.links);
    GroupBlocksClean(Grouped(c.links));
    BlocksInner(GroupBlocks(Grouped(c.links)));
  }

  lemma SectionsDetermined(c: Config, d: Config)
    requires CleanLayout(c) && CleanLayout(d) && SynergyConf(c) == SynergyConf(d)
    ensures ScreenList(c.screens) == ScreenList(d.screens)
    ensures HasAliases(c.screens) == HasAliases(d.screens)
            && (HasAliases(c.screens) ==> BlockLines(AliasBlocks(c.screens)) == BlockLines(AliasBlocks(d.screens)))
    ensures (c.links != []) == (d.links != [])
            && (c.links != [] ==> BlockLines(GroupBlocks(Grouped(c.links))) == BlockLines(GroupBlocks(Grouped(d.links))))
  {
    ConfIsSections(c);
    ConfIsSections(d);
    TitlesDiffer(c);
    TitlesDiffer(d);
    CleanLines(c);
    CleanLines(d);
    BothPresent(BANNER, ScreenList(c.screens), Aliases(c), ScreenList(d.screens), Aliases(d));
    SectionDetermined("section: aliases\n", 'a', HasAliases(c.screens), BlockLines(AliasBlocks(c.screens)), Links(c),
                      HasAliases(d.screens), BlockLines(AliasBlocks(d.screens)), Links(d));
    SectionDetermined("section: links\n", 'l', c.links != [], BlockLines(GroupBlocks(Grouped(c.links))),
                      OptionSection(c.options, c.clipboardSharing),
                      d.links != [], BlockLines(GroupBlocks(Grouped(d.links))),
                          OptionSection(d.options, d.clipboardSharing));
  }

  lemma {:induction false} NoAliasesNoBlocks(screens: seq<Screen>)
    requires !HasAliases(screens)
    ensures AliasBlocks(screens) == []
  {
    if screens != [] {
      assert screens[|screens| - 1].aliases == [];
      assert forall i :: 0 <= i < |screens| - 1 ==> screens[..|screens| - 1][i] == screens[i];
      NoAliasesNoBlocks(screens[..|screens| - 1]);
    }
  }

  lemma AliasesDetermined(c: Config, d: Config)
    requires CleanLayout(c) && CleanLayout(d) && SynergyConf(c) == SynergyConf(d)
    ensures AliasBlocks(c.screens) == AliasBlocks(d.screens)
  {
    SectionsDetermined(c, d);
    if HasAliases(c.screens) {
      CleanLines(c);
      CleanLines(d);
      BlocksDetermined(AliasBlocks(c.screens), AliasBlocks(d.screens));
    } else {
      NoAliasesNoBlocks(c.screens);
      NoAliasesNoBlocks(d.screens);
    }
  }

  /** Two documents with the same layout text have the same screens in the same order, the same
      aliases under the same names and the same adjacency, as long as no name contains a tab or a
      newline. */
  lemma LayoutDeterminesAdjacency(c: Config, d: Config)
    requires CleanLayout(c) && CleanLayout(d) && SynergyConf(c) == SynergyConf(d)
    ensures |c.screens| == |d.screens| && forall i :: 0 <= i < |c.screens| ==> c.screens[i].name == d.screens[i].name
    ensures AliasBlocks(c.screens) == AliasBlocks(d.screens) && Grouped(c.links) == Grouped(d.links)
    ensures forall a, side: Side, b ::
              (Link(a, side, b) in c.links || Link(b, side.Opposite(), a) in c.links) <==>
              (Link(a, side, b) in d.links || Link(b, side.Opposite(), a) in d.links)
  {
    SectionsDetermined(c, d);
    ScreensDetermined(c.screens, d.screens);
    AliasesDetermined(c, d);
    if c.links != [] {
      CleanLines(c);
      CleanLines(d);
      BlocksDetermined(GroupBlocks(Grouped(c.links)), GroupBlocks(Grouped(d.links)));
      GroupsDetermined(Grouped(c.links), Grouped(d.links));
    }
    forall a, side: Side, b
      ensures (Link(a, side, b) in c.links || Link(b, side.Opposite(), a) in c.links) <==>
              (Link(a, side, b) in d.links || Link(b, side.Opposite(), a) in d.links)
    {
      AdjacencyIsSymmetricClosure(c.links, a, side, b);
      AdjacencyIsSymmetricClosure(d.links, a, side, b);
    }
  }

  function Bare(name: string): Screen
  {
    Screen(name, [], GridPosition(0, 0, 160, 120), [])
  }

  /** The condition on names is needed: a screen whose name contains a line break reads as two. */
  lemma BrokenNameReadsAsTwoScreens(a: string, b: string, port: nat)
    ensures
      var one := OneScreen(a + ":\n\t" + b, port);
      var two := OneScreen(a, port).(screens := [Bare(a), Bare(b)]);
      Valid(one) && Valid(two) && SynergyConf(one) == SynergyConf(two) && |one.screens| != |two.screens|
  {
    var name := a + ":\n\t" + b;
    var one, two := OneScreen(name, port), OneScreen(a, port).(screens := [Bare(a), Bare(b)]);
    assert one.screens[0].name == name && two.screens[0].name == a;
    assert one.screens[..0] == [] && two.screens[..1] == [Bare(a)] && [Bare(a)][..0] == [];
    assert ScreenLines([]) == "" && ScreenLines([Bare(a)]) == "\t" + a + ":\n";
    assert ScreenLines(one.screens) == "\t" + name + ":\n";
    assert ScreenLines(two.screens) == "\t" + a + ":\n" + ("\t" + b + ":\n");
    assert ":\n" + "\t" == ":\n\t";
    assert "\t" + (a + (":\n" + "\t") + b) + ":\n" == "\t" + a + ":\n" + ("\t" + b + ":\n");
    assert AliasSection(one.screens) == "" == AliasSection(two.screens);
  }

  // ---------- the settings file and the command line ----------

  lemma {:induction false} DecimalShape(n: nat)
    ensures Decimal(n) != "" && (forall i :: 0 <= i < |Decimal(n)| ==> '0' <= Decimal(n)[i] <= '9')
    ensures n < 10 <==> |Decimal(n)| == 1
    ensures Decimal(n)[|Decimal(n)| - 1] == ('0' as int + n % 10) as char
    ensures n >= 10 ==> Decimal(n)[..|Decimal(n)| - 1] == Decimal(n / 10)
  {
    if n >= 10 {
      DecimalShape(n / 10);
      DecimalShape(n % 10);
    }
  }

  lemma {:induction false} DecimalDetermined(m: nat, n: nat)
    requires Decimal(m) == Decimal(n)
    ensures m == n
  {
    DecimalShape(m);
    DecimalShape(n);
    assert '0' as int + m % 10 == '0' as int + n % 10;
    if m >= 10 {
      DecimalDetermined(m / 10, n / 10);
    }
  }

  lemma DecimalIsOneLine(n: nat)
    ensures '\n' !in Decimal(n)
  {
    DecimalShape(n);
  }

  /** The settings file determines the role, the name, the port and a client's server address, as
      long as the names contain no newline. */
  lemma SettingsDetermine(c: Config, d: Config, p: Platform)
    requires '\n' !in c.serverName && '\n' !in d.serverName && DeskflowSettings(c, p) == DeskflowSettings(d, p)
    ensures c.role == d.role && c.serverName == d.serverName && c.port == d.port
    ensures c.role == Client ==> RemoteAddress(c, p) == RemoteAddress(d, p)
  {
    var rc, rd := RoleSection(c.role, RemoteAddress(c, p), p.confPath),
        RoleSection(d.role, RemoteAddress(d, p), p.confPath);
    SettingsLines(c.role, c.serverName, c.port, rc, d.role, d.serverName, d.port, rd);
    if c.role == Client {
      AddressDetermined(RemoteAddress(c, p), RemoteAddress(d, p), p.confPath);
    }
  }

  lemma SettingsLines(r: NodeRole, n: string, k: nat, x: string, s: NodeRole, m: string, l: nat, y: string)
    requires '\n' !in n && '\n' !in m
    requires INI_BANNER + ("coreMode=" + ModeText(r) + "\n"
            + ("computerName=" + n + "\n" + ("port=" + Decimal(k) + "\n" + ("processMode=1\n\n" + x))))
          == INI_BANNER + ("coreMode=" + ModeText(s) + "\n"
              + ("computerName=" + m + "\n" + ("port=" + Decimal(l) + "\n" + ("processMode=1\n\n" + y))))
    ensures r == s && n == m && k == l && x == y
  {
    var px, py := "port=" + Decimal(k) + "\n" + ("processMode=1\n\n" + x),
        "port=" + Decimal(l) + "\n" + ("processMode=1\n\n" + y);
    var nx, ny := "computerName=" + n + "\n" + px, "computerName=" + m + "\n" + py;
    StripFront(INI_BANNER, "coreMode=" + ModeText(r) + "\n" + nx, "coreMode=" + ModeText(s) + "\n" + ny);
    Peel("coreMode=" + ModeText(r), nx, "coreMode=" + ModeText(s), ny);
    StripFront("coreMode=", ModeText(r), ModeText(s));
    Peel("computerName=" + n, px, "computerName=" + m, py);
    StripFront("computerName=", n, m);
    DecimalIsOneLine(k);
    DecimalIsOneLine(l);
    Peel("port=" + Decimal(k), "processMode=1\n\n" + x, "port=" + Decimal(l), "processMode=1\n\n" + y);
    StripFront("port=", Decimal(k), Decimal(l));
    DecimalDetermined(k, l);
    StripFront("processMode=1\n\n", x, y);
  }

  lemma AddressDetermined(a: Option<string>, b: Option<string>, confPath: string)
    requires RoleSection(Client, a, confPath) == RoleSection(Client, b, confPath)
    ensures a == b
  {
    var x := match a case Some(t) => "remoteHost=" + t + "\n" case None => "";
    var y := match b case Some(t) => "remoteHost=" + t + "\n" case None => "";
    StripFront("[client]\n", x, y);
    if a.Some? && b.Some? {
      assert a.value == x[11..|x| - 1] && b.value == y[11..|y| - 1];
    }
  }

  /** The command line determines the role, and in the split layout also the name, a server's port
      and a client's server address. */
  lemma CommandDetermines(layout: CoreLayout, c: Config, d: Config, p: Platform)
    requires BuildCommand(layout, c, p).Success? && BuildCommand(layout, c, p) == BuildCommand(layout, d, p)
    ensures c.role == d.role
    ensures layout.SplitLegacy? ==> c.serverName == d.serverName
    ensures layout.SplitLegacy? && c.role == Server ==> c.port == d.port
    ensures layout.SplitLegacy? && c.role == Client ==> RemoteAddress(c, p) == RemoteAddress(d, p)
  {
    var a, b := BuildCommand(layout, c, p).value.args, BuildCommand(layout, d, p).value.args;
    assert a[0] == b[0];
    match layout
    case Unified(_) =>
      assert "server"[0] != "client"[0];
    case SplitLegacy(_, _) =>
      assert |a| == |b| && a[3] == b[3];
      if c.role == Server {
        assert a[5] == b[5];
        StripFront(":", Decimal(c.port), Decimal(d.port));
        DecimalDetermined(c.port, d.port);
      } else {
        assert a[4] == b[4];
      }
  }

  // ---------- spelled out ----------

  function Digits(s: string): int
  {
    if s == "" then 0 else Digits(s[..|s| - 1]) * 10 + (s[|s| - 1] as int - '0' as int)
  }

  /** A number is printed in decimal. */
  lemma {:induction false} DecimalIsDecimal(n: nat)
    ensures Digits(Decimal(n)) == n
  {
    DecimalShape(n);
    if n >= 10 {
      DecimalIsDecimal(n / 10);
    } else {
      assert Decimal(n)[..0] == "";
    }
  }

  /** One link, `b` to the left of `a`: the way back leads to the right. */
  lemma OneLinkSpelledOut(a: string, b: string)
    requires Order.Less(a, b)
    ensures LinkSection([Link(a, Left, b)]) ==
            "section: links\n"
            + ("\t" + a + ":\n" + ("\t\tleft(0,100) = " + b + "(0,100)\n"))
            + ("\t" + b + ":\n" + ("\t\tright(0,100) = " + a + "(0,100)\n")) + "end\n\n"
  {
    Order.LessTrichotomous(a, b);
    var g, h := Group(a, [Edge(Left, b)]), Group(b, [Edge(Right, a)]);
    var links := [Link(a, Left, b)];
    assert links[..0] == [] && Grouped(links[..0]) == [];
    assert Push([], a, Edge(Left, b)) == [g];
    assert [g][1..] == [] && Push([g], b, Edge(Right, a)) == [g] + [h];
    assert Grouped(links) == [g] + [h];
    assert ([g] + [h])[..1] == [g] && [g][..0] == [];
    assert [Edge(Left, b)][..0] == [] && [Edge(Right, a)][..0] == [];
    assert EdgeLines([Edge(Left, b)]) == EdgeLine(Edge(Left, b)) && EdgeLines([Edge(Right, a)]) == EdgeLine(Edge(Right, a));
    EdgeLineSpelledOut(b, a);
    assert GroupLines([g]) == GroupBlock(g);
    assert GroupLines([g] + [h]) == GroupBlock(g) + GroupBlock(h);
  }

  lemma EdgeLineSpelledOut(to: string, back: string)
    ensures EdgeLine(Edge(Left, to)) == "\t\tleft(0,100) = " + to + "(0,100)\n"
    ensures EdgeLine(Edge(Right, back)) == "\t\tright(0,100) = " + back + "(0,100)\n"
    ensures EdgeLine(Edge(Up, to)) == "\t\tup(0,100) = " + to + "(0,100)\n"
    ensures EdgeLine(Edge(Down, back)) == "\t\tdown(0,100) = " + back + "(0,100)\n"
  {
    assert "\t\t" + "left" + "(0,100) = " == "\t\tleft(0,100) = ";
    assert "\t\t" + "right" + "(0,100) = " == "\t\tright(0,100) = ";
    assert "\t\t" + "up" + "(0,100) = " == "\t\tup(0,100) = ";
    assert "\t\t" + "down" + "(0,100) = " == "\t\tdown(0,100) = ";
  }

  lemma SectionsSpelledOut(name: string, alias: string, key: string, value: string)
    ensures ScreenLines([Bare(name)]) == "\t" + name + ":\n"
    ensures AliasSection([Bare(name).(aliases := [alias])]) ==
            "section: aliases\n" + ("\t" + name + ":\n" + ("\t\t" + alias + "\n")) + "end\n\n"
    ensures OptionSection([(key, value)], true) == "section: options\n" + ("\t" + key + " = " + value + "\n") + "end\n"
    ensures OptionSection([], false) == "section: options\n" + "\tclipboardSharing = false\n" + "end\n"
    ensures AliasSection([Bare(name)]) == "" && LinkSection([]) == "" && OptionSection([], true) == ""
  {
    var s := Bare(name).(aliases := [alias]);
    assert [Bare(name)][..0] == [] && [s][..0] == [] && [alias][..0] == [] && [(key, value)][..0] == [];
    assert IndentedLines([alias]) == "\t\t" + alias + "\n";
    assert AliasLines([s]) == AliasBlock(s);
    assert [s][0].aliases != [];
    assert OptionLines([(key, value)]) == "" + "\t" + key + " = " + value + "\n";
  }

  /** The settings file of a client and of a server, line by line. */
  lemma SettingsSpelledOut(c: Config, p: Platform)
    ensures c.role == Client && RemoteAddress(c, p).Some? ==>
              DeskflowSettings(c, p) ==
              INI_BANNER + ("coreMode=1\n" + ("computerName=" + c.serverName + "\n" + ("port=" + Decimal(c.port) + "\n"
              + ("processMode=1\n\n" + ("[client]\n" + ("remoteHost=" + RemoteAddress(c, p).value + "\n"))))))
    ensures c.role == Server ==>
              DeskflowSettings(c, p) ==
              INI_BANNER + ("coreMode=2\n" + ("computerName=" + c.serverName + "\n" + ("port=" + Decimal(c.port) + "\n"
              + ("processMode=1\n\n" + ("[server]\nexternalConfig=true\nexternalConfigFile=" + p.confPath + "\n")))))
  {
    assert "coreMode=" + "1" + "\n" == "coreMode=1\n" && "coreMode=" + "2" + "\n" == "coreMode=2\n";
  }

  /** The command lines, word by word. */
  lemma CommandsSpelledOut(c: Config, p: Platform, path: string, server: string, client: string)
    ensures BuildCommand(Unified(path), c, p) ==
            Success(Command(path, [if c.role == Server then "server" else "client", "-s", p.settingsPath]))
    ensures c.role == Server ==>
              BuildCommand(SplitLegacy(server, client), c, p) ==
              Success(Command(server, ["-f", "-1", "-n", c.serverName, "-a", ":" + Decimal(c.port), "-c", p.confPath]))
    ensures c.role == Client && RemoteAddress(c, p).Some? ==>
              BuildCommand(SplitLegacy(server, client), c, p) ==
              Success(Command(client, ["-f", "-1", "-n", c.serverName, RemoteAddress(c, p).value]))
  {
  }
}
