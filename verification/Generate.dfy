/** The screen-layout generator as it is written: text appended line by line, edges grouped in an
    ordered map. */
module Generation {
  import opened Configuration

  method WriteScreens(screens: seq<Screen>) returns (out: string)
    ensures out == ScreenLines(screens)
  {
    out := "";
    for i := 0 to |screens|
      invariant out == ScreenLines(screens[..i])
    {
      assert screens[..i + 1][..i] == screens[..i];
      out := out + ("\t" + screens[i].name + ":\n");
    }
    assert screens[..|screens|] == screens;
  }

  method WriteAliasBlock(s: Screen) returns (out: string)
    requires s.aliases != []
    ensures out == AliasBlock(s)
  {
    var lines := "";
    for i := 0 to |s.aliases|
      invariant lines == IndentedLines(s.aliases[..i])
    {
      assert s.aliases[..i + 1][..i] == s.aliases[..i];
      lines := lines + ("\t\t" + s.aliases[i] + "\n");
    }
    assert s.aliases[..|s.aliases|] == s.aliases;
    out := "\t" + s.name + ":\n" + lines;
  }

  /** Screens without aliases are skipped, and the section is left out if there are none. */
  method WriteAliases(screens: seq<Screen>) returns (out: string)
    ensures out == AliasSection(screens)
  {
    if forall i :: 0 <= i < |screens| ==> screens[i].aliases == [] {
      return "";
    }
    var lines := "";
    for i := 0 to |screens|
      invariant lines == AliasLines(screens[..i])
    {
      assert screens[..i + 1][..i] == screens[..i];
      if screens[i].aliases != [] {
        var block := WriteAliasBlock(screens[i]);
        lines := lines + block;
      } else {
        assert AliasBlock(screens[i]) == "";
      }
    }
    assert screens[..|screens|] == screens;
    out := "section: aliases\n" + lines + "end\n\n";
  }

  /** Every link is entered under both of its screens. */
  method GroupEdges(links: seq<Link>) returns (byFrom: seq<Group>)
    ensures byFrom == Grouped(links)
  {
    byFrom := [];
    for i := 0 to |links|
      invariant byFrom == Grouped(links[..i])
    {
      assert links[..i + 1][..i] == links[..i];
      byFrom := Push(byFrom, links[i].from, Edge(links[i].side, links[i].to));
      byFrom := Push(byFrom, links[i].to, Edge(links[i].side.Opposite(), links[i].from));
    }
    assert links[..|links|] == links;
  }

  method WriteEdges(edges: seq<Edge>) returns (out: string)
    ensures out == EdgeLines(edges)
  {
    out := "";
    for i := 0 to |edges|
      invariant out == EdgeLines(edges[..i])
    {
      assert edges[..i + 1][..i] == edges[..i];
      out := out + ("\t\t" + edges[i].side.Text() + "(0,100) = " + edges[i].to + "(0,100)\n");
    }
    assert edges[..|edges|] == edges;
  }

  method WriteGroups(groups: seq<Group>) returns (out: string)
    ensures out == GroupLines(groups)
  {
    out := "";
    for i := 0 to |groups|
      invariant out == GroupLines(groups[..i])
    {
      assert groups[..i + 1][..i] == groups[..i];
      var edges := WriteEdges(groups[i].edges);
      out := out + ("\t" + groups[i].from + ":\n" + edges);
    }
    assert groups[..|groups|] == groups;
  }

  method WriteOptions(options: seq<(string, string)>, clipboardSharing: bool) returns (out: string)
    ensures out == OptionSection(options, clipboardSharing)
  {
    if options == [] && clipboardSharing {
      return "";
    }
    var lines := "";
    for i := 0 to |options|
      invariant lines == OptionLines(options[..i])
    {
      assert options[..i + 1][..i] == options[..i];
      lines := lines + "\t" + options[i].0 + " = " + options[i].1 + "\n";
    }
    assert options[..|options|] == options;
    out := "section: options\n" + (if clipboardSharing then "" else "\tclipboardSharing = false\n") + lines + "end\n";
  }

  method GenerateSynergyConf(c: Config) returns (out: string)
    ensures out == SynergyConf(c)
  {
    var screens := WriteScreens(c.screens);
    var aliases := WriteAliases(c.screens);
    var links := "";
    if c.links != [] {
      var byFrom := GroupEdges(c.links);
      var groups := WriteGroups(byFrom);
      links := "section: links\n" + groups + "end\n\n";
    }
    var options := WriteOptions(c.options, c.clipboardSharing);
    out := (BANNER + screens + "end\n\n") + (aliases + (links + options));
  }
}
