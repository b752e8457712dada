/**
 * `generate_claude_md`: the CLAUDE.md document, built line by line in a fixed
 * section order. Each selection set is given as the sequence it is iterated in,
 * since a Python set's iteration order is unspecified.
 */
module Generator {
  import opened Wrappers
  import opened Strings
  import opened Catalog
  import opened Project

  /** The order in which the generator visits each of the four selection sets. */
  datatype Listing = Listing(
    agents: seq<string>,
    commands: seq<string>,
    outputStyles: seq<string>,
    mcpServers: seq<string>)

  const NoneSelected := "- None selected (0% MCP tokens)"
  const AgentsHeading := "### Agents"
  const CommandsHeading := "### Commands"
  const OutputStyleHeading := "### Output Style"
  /** The prefix of every "Load when" line. */
  const LoadWhenPrefix := "  Load when: "
  const ComponentsBanner: seq<string> := ["", "## Active Components"]
  /**
   * The closing instruction lines, each the concatenation of its phrases. The
   * newline-freedom of each line is its own small lemma below (MinimalLineSingle
   * and the next two): stated together over whole literals, the proof exceeds
   * the verifier's resource budget.
   */
  const MinimalLine := "This configuration " + "keeps initial " + "token usage minimal."
  const OnDemandLine := "Load MCP servers " + "on-demand during " + "your session by saying:"
  const GithubLine := "- 'load github mcp' " + "when ready to commit"
  const PlaywrightLine := "- 'load playwright' " + "for testing"
  const Neo4jLine := "- 'load neo4j' " + "for database work"
  const Instructions: seq<string> :=
    ["", "## Instructions", MinimalLine, OnDemandLine, GithubLine, PlaywrightLine, Neo4jLine]

  /**
   * The six opening lines. `totalText` and `percentText` are the estimate and its
   * percentage of the context window as the source formats them.
   */
  function Header(totalText: string, percentText: string): seq<string>
  {
    ["# Project Configuration",
     "## Token Optimization",
     "Estimated usage: " + totalText + " tokens (~" + percentText + "%)",
     "",
     "## MCP Servers",
     "Load only when needed:"]
  }

  /** `next((s for s in servers if s.name == name), None)`: the first server of that name. */
  function FindServer(servers: seq<McpServer>, name: string): (r: Option<McpServer>)
    ensures r.None? <==> forall i :: 0 <= i < |servers| ==> servers[i].name != name
    ensures r.Some? ==> r.value in servers && r.value.name == name
  {
    if servers == [] then None
    else if servers[0].name == name then Some(servers[0])
    else
      assert forall i :: 1 <= i < |servers| ==> servers[i] == servers[1..][i - 1];
      FindServer(servers[1..], name)
  }

  /** The server found is the first one of that name in the catalog. */
  lemma {:induction false} FindServerFirst(servers: seq<McpServer>, name: string, k: nat)
    requires k < |servers| && servers[k].name == name
    requires forall j :: 0 <= j < k ==> servers[j].name != name
    ensures FindServer(servers, name) == Some(servers[k])
  {
    if k > 0 {
      FindServerFirst(servers[1..], name, k - 1);
    }
  }

  /** The "Load when" line of a server: at most its first three hints, comma-separated. */
  function LoadWhen(server: McpServer): string
  {
    var hints := if |server.whenToLoad| <= 3 then server.whenToLoad else server.whenToLoad[..3];
    LoadWhenPrefix + Join(hints, ", ")
  }

  /** The two lines for a server that is in the catalog; nothing for one that is not. */
  function ServerLines(servers: seq<McpServer>, name: string): seq<string>
  {
    match FindServer(servers, name)
    case None => []
    case Some(server) => ["- " + name + ": " + server.description, LoadWhen(server)]
  }

  /** The lines for the selected servers, in the order they are visited. */
  function McpEntries(names: seq<string>, servers: seq<McpServer>): seq<string>
    decreases |names|
  {
    if names == [] then []
    else McpEntries(names[..|names| - 1], servers) + ServerLines(servers, names[|names| - 1])
  }

  /** The MCP block: the servers' lines, or the "None selected" line when no server is selected. */
  function McpBlock(names: seq<string>, servers: seq<McpServer>): seq<string>
  {
    if |names| > 0 then McpEntries(names, servers) else [NoneSelected]
  }

  /** One `- name` bullet per item. */
  function Bullets(items: seq<string>): seq<string>
    decreases |items|
  {
    if items == [] then [] else Bullets(items[..|items| - 1]) + ["- " + items[|items| - 1]]
  }

  /** A heading followed by the bullets, or nothing for an empty category. */
  function Subsection(heading: string, items: seq<string>): seq<string>
  {
    if |items| > 0 then [heading] + Bullets(items) else []
  }

  /** The lines of the generated document, in order. */
  function DocumentLines(totalText: string, percentText: string, listing: Listing, servers: seq<McpServer>): seq<string>
  {
    Header(totalText, percentText)
    + McpBlock(listing.mcpServers, servers)
    + ComponentsBanner
    + Subsection(AgentsHeading, listing.agents)
    + Subsection(CommandsHeading, listing.commands)
    + Subsection(OutputStyleHeading, listing.outputStyles)
    + Instructions
  }

  /** Appends one component subsection, the way the source does for each of the three categories. */
  method AppendSubsection(lines: seq<string>, heading: string, items: seq<string>) returns (result: seq<string>)
    ensures result == lines + Subsection(heading, items)
  {
    result := lines;
    if |items| > 0 {
      result := result + [heading];
      for i := 0 to |items|
        invariant result == lines + [heading] + Bullets(items[..i])
      {
        assert items[..i + 1][..i] == items[..i];
        result := result + ["- " + items[i]];
      }
      assert items[..|items|] == items;
    }
  }

  /** Appends the MCP server block, the way the source does for the selected servers. */
  method AppendMcpBlock(lines: seq<string>, names: seq<string>, servers: seq<McpServer>) returns (result: seq<string>)
    ensures result == lines + McpBlock(names, servers)
  {
    result := lines;
    if |names| > 0 {
      for i := 0 to |names|
        invariant result == lines + McpEntries(names[..i], servers)
      {
        assert names[..i + 1][..i] == names[..i];
        assert McpEntries(names[..i + 1], servers) == McpEntries(names[..i], servers) + ServerLines(servers, names[i]);
        var server := FindServer(servers, names[i]);
        if server.Some? {
          result := result + ["- " + names[i] + ": " + server.value.description];
          result := result + [LoadWhen(server.value)];
        }
      }
      assert names[..|names|] == names;
    } else {
      result := result + [NoneSelected];
    }
  }

  /** `generate_claude_md`: builds the lines by appending, then joins them with newlines. */
  method GenerateClaudeMd(totalText: string, percentText: string, listing: Listing, servers: seq<McpServer>)
    returns (document: string)
    ensures document == Join(DocumentLines(totalText, percentText, listing, servers), "\n")
  {
    var lines := Header(totalText, percentText);
    lines := AppendMcpBlock(lines, listing.mcpServers, servers);
    lines := lines + ComponentsBanner;
    lines := AppendSubsection(lines, AgentsHeading, listing.agents);
    lines := AppendSubsection(lines, CommandsHeading, listing.commands);
    lines := AppendSubsection(lines, OutputStyleHeading, listing.outputStyles);
    lines := lines + Instructions;
    document := Join(lines, "\n");
  }

  /** A line that starts with "-" or a space: a bullet, a server line, never a heading. */
  predicate Indented(line: string)
  {
    |line| > 0 && (line[0] == '-' || line[0] == ' ')
  }

  /**
   * A server contributes nothing, or exactly two lines: its description line,
   * which starts with "- " + the server's name + ": ", and its "Load when" line.
   */
  lemma ServerLinesShape(servers: seq<McpServer>, name: string)
    ensures |ServerLines(servers, name)| % 2 == 0
    ensures forall i :: 0 <= i < |ServerLines(servers, name)| ==> Indented(ServerLines(servers, name)[i])
    ensures ServerLines(servers, name) == [] ||
            (|ServerLines(servers, name)| == 2 && StartsWith(ServerLines(servers, name)[0], "- " + name + ": ")
             && StartsWith(ServerLines(servers, name)[1], LoadWhenPrefix))
  {
    match FindServer(servers, name)
    case None =>
    case Some(server) =>
      var p := "- " + name + ": ";
      var a, b := p + server.description, LoadWhen(server);
      assert a[..|p|] == p;
      assert b == LoadWhenPrefix + Join(if |server.whenToLoad| <= 3 then server.whenToLoad else server.whenToLoad[..3], ", ");
      assert b[..|LoadWhenPrefix|] == LoadWhenPrefix;
      assert a[0] == '-';
      assert b[0] == ' ';
      assert ServerLines(servers, name) == [a, b];
  }

  /** Every server line starts with "- " (its description) or with a space (its "Load when" line). */
  lemma {:induction false} McpEntriesShape(names: seq<string>, servers: seq<McpServer>)
    ensures |McpEntries(names, servers)| % 2 == 0
    ensures forall i :: 0 <= i < |McpEntries(names, servers)| ==> Indented(McpEntries(names, servers)[i])
    decreases |names|
  {
    if names != [] {
      McpEntriesShape(names[..|names| - 1], servers);
      ServerLinesShape(servers, names[|names| - 1]);
      var a, b := McpEntries(names[..|names| - 1], servers), ServerLines(servers, names[|names| - 1]);
      assert McpEntries(names, servers) == a + b;
      assert forall i :: 0 <= i < |a + b| ==> (a + b)[i] == if i < |a| then a[i] else b[i - |a|];
    }
  }

  /**
   * The server lines come in pairs: at every even position a description line
   * starting with "- ", followed by a "Load when" line.
   */
  lemma {:induction false} McpEntriesPairs(names: seq<string>, servers: seq<McpServer>)
    ensures forall i :: 0 <= i < |McpEntries(names, servers)| - 1 && i % 2 == 0 ==>
              StartsWith(McpEntries(names, servers)[i], "- ") && StartsWith(McpEntries(names, servers)[i + 1], LoadWhenPrefix)
    decreases |names|
  {
    if names != [] {
      var last := names[|names| - 1];
      var a, b := McpEntries(names[..|names| - 1], servers), ServerLines(servers, last);
      McpEntriesPairs(names[..|names| - 1], servers);
      McpEntriesShape(names[..|names| - 1], servers);
      ServerLinesShape(servers, last);
      var e := McpEntries(names, servers);
      assert e == a + b;
      forall i | 0 <= i < |e| - 1 && i % 2 == 0
        ensures StartsWith(e[i], "- ") && StartsWith(e[i + 1], LoadWhenPrefix)
      {
        if i < |a| {
          assert e[i] == a[i] && e[i + 1] == a[i + 1];
        } else {
          assert i == |a| && e[i] == b[0] && e[i + 1] == b[1];
          StartsWithShorter(b[0], "- " + last + ": ", "- ");
        }
      }
    }
  }

  /** A string that starts with `p + q` starts with `p`. */
  lemma StartsWithShorter(s: string, pq: string, p: string)
    requires StartsWith(s, pq) && |p| <= |pq| && pq[..|p|] == p
    ensures StartsWith(s, p)
  {
    assert s[..|p|] == s[..|pq|][..|p|];
  }

  /** Every bullet starts with "-". */
  lemma {:induction false} BulletsShape(items: seq<string>)
    ensures |Bullets(items)| == |items|
    ensures forall i :: 0 <= i < |Bullets(items)| ==> Indented(Bullets(items)[i])
    decreases |items|
  {
    if items != [] {
      BulletsShape(items[..|items| - 1]);
      var l := "- " + items[|items| - 1];
      assert l[0] == '-';
    }
  }

  /** Each item has its bullet. */
  lemma {:induction false} BulletsMention(items: seq<string>, k: nat)
    requires k < |items|
    ensures "- " + items[k] in Bullets(items)
    decreases |items|
  {
    if k < |items| - 1 {
      BulletsMention(items[..|items| - 1], k);
    }
  }

  /** The MCP block is the single "None selected" line exactly when no server is selected. */
  lemma NoneSelectedIff(names: seq<string>, servers: seq<McpServer>)
    ensures McpBlock(names, servers) == [NoneSelected] <==> names == []
  {
    McpEntriesShape(names, servers);
  }

  /** Selected servers of which the catalog knows none leave the MCP block empty (no "None selected" line). */
  lemma {:induction false} UnknownServersSkipped(names: seq<string>, servers: seq<McpServer>)
    requires forall k :: 0 <= k < |names| ==> FindServer(servers, names[k]).None?
    ensures McpEntries(names, servers) == []
    decreases |names|
  {
    if names != [] {
      assert FindServer(servers, names[|names| - 1]).None?;
      UnknownServersSkipped(names[..|names| - 1], servers);
    }
  }

  /** Each selected server the catalog knows gets its description line and its "Load when" line. */
  lemma {:induction false} KnownServerListed(names: seq<string>, servers: seq<McpServer>, k: nat)
    requires k < |names| && FindServer(servers, names[k]).Some?
    ensures "- " + names[k] + ": " + FindServer(servers, names[k]).value.description in McpEntries(names, servers)
    ensures LoadWhen(FindServer(servers, names[k]).value) in McpEntries(names, servers)
    decreases |names|
  {
    if k < |names| - 1 {
      KnownServerListed(names[..|names| - 1], servers, k);
    }
  }

  /** A "Load when" line names at most the first three hints, and all three when there are that many. */
  lemma LoadWhenHints(server: McpServer)
    ensures |server.whenToLoad| <= 3 ==> LoadWhen(server) == LoadWhenPrefix + Join(server.whenToLoad, ", ")
    ensures |server.whenToLoad| >= 3 ==> LoadWhen(server) == LoadWhenPrefix + Join(server.whenToLoad[..3], ", ")
  {
    if |server.whenToLoad| == 3 {
      assert server.whenToLoad[..3] == server.whenToLoad;
    }
  }

  /** The document starts with the fixed header and ends with the fixed instructions. */
  lemma DocumentFrame(totalText: string, percentText: string, listing: Listing, servers: seq<McpServer>)
    ensures var lines := DocumentLines(totalText, percentText, listing, servers);
            |lines| >= 14 && lines[..6] == Header(totalText, percentText) && lines[|lines| - 7..] == Instructions
  {
  }

  /** A line that starts with "###". */
  predicate SubHeading(h: string)
  {
    |h| >= 3 && h[0] == '#' && h[1] == '#' && h[2] == '#'
  }

  lemma SubHeadings(h: string)
    requires h == AgentsHeading || h == CommandsHeading || h == OutputStyleHeading
    ensures SubHeading(h)
  {
    assert h[0] == '#' && h[1] == '#' && h[2] == '#';
  }

  lemma HeaderHasNoSubHeading(totalText: string, percentText: string)
    ensures forall i :: 0 <= i < 6 ==> !SubHeading(Header(totalText, percentText)[i])
  {
    var e := "Estimated usage: " + totalText + " tokens (~" + percentText + "%)";
    assert e[0] == 'E';
    assert Header(totalText, percentText)[2] == e;
  }

  lemma FixedLinesHaveNoSubHeading()
    ensures forall i :: 0 <= i < |ComponentsBanner| ==> !SubHeading(ComponentsBanner[i])
    ensures forall i :: 0 <= i < |Instructions| ==> !SubHeading(Instructions[i])
  {
    assert MinimalLine[0] == 'T' && OnDemandLine[0] == 'L';
    assert GithubLine[0] == '-' && PlaywrightLine[0] == '-' && Neo4jLine[0] == '-';
  }

  /** No line outside the three subsection headings is one of those headings. */
  lemma HeadingsOnlyFromSubsections(totalText: string, percentText: string, listing: Listing, servers: seq<McpServer>, h: string)
    requires h == AgentsHeading || h == CommandsHeading || h == OutputStyleHeading
    ensures h !in Header(totalText, percentText)
    ensures h !in McpBlock(listing.mcpServers, servers)
    ensures h !in ComponentsBanner && h !in Instructions
    ensures forall items :: h !in Bullets(items)
  {
    SubHeadings(h);
    HeaderHasNoSubHeading(totalText, percentText);
    FixedLinesHaveNoSubHeading();
    McpEntriesShape(listing.mcpServers, servers);
    assert NoneSelected[0] == '-';
    forall items ensures h !in Bullets(items) {
      BulletsShape(items);
    }
  }

  /**
   * Each of "### Agents", "### Commands" and "### Output Style" appears in the
   * document exactly when its category has a selected item.
   */
  lemma SubsectionPresentIff(totalText: string, percentText: string, listing: Listing, servers: seq<McpServer>)
    ensures AgentsHeading in DocumentLines(totalText, percentText, listing, servers) <==> |listing.agents| > 0
    ensures CommandsHeading in DocumentLines(totalText, percentText, listing, servers) <==> |listing.commands| > 0
    ensures OutputStyleHeading in DocumentLines(totalText, percentText, listing, servers) <==> |listing.outputStyles| > 0
  {
    HeadingsOnlyFromSubsections(totalText, percentText, listing, servers, AgentsHeading);
    HeadingsOnlyFromSubsections(totalText, percentText, listing, servers, CommandsHeading);
    HeadingsOnlyFromSubsections(totalText, percentText, listing, servers, OutputStyleHeading);
  }

  /** Every selected agent, command and output style has its bullet in the document. */
  lemma EveryComponentListed(totalText: string, percentText: string, listing: Listing, servers: seq<McpServer>)
    ensures forall k :: 0 <= k < |listing.agents| ==> "- " + listing.agents[k] in DocumentLines(totalText, percentText, listing, servers)
    ensures forall k :: 0 <= k < |listing.commands| ==> "- " + listing.commands[k] in DocumentLines(totalText, percentText, listing, servers)
    ensures forall k :: 0 <= k < |listing.outputStyles| ==> "- " + listing.outputStyles[k] in DocumentLines(totalText, percentText, listing, servers)
  {
    forall k | 0 <= k < |listing.agents| ensures "- " + listing.agents[k] in Subsection(AgentsHeading, listing.agents) {
      BulletsMention(listing.agents, k);
    }
    forall k | 0 <= k < |listing.commands| ensures "- " + listing.commands[k] in Subsection(CommandsHeading, listing.commands) {
      BulletsMention(listing.commands, k);
    }
    forall k | 0 <= k < |listing.outputStyles| ensures "- " + listing.outputStyles[k] in Subsection(OutputStyleHeading, listing.outputStyles) {
      BulletsMention(listing.outputStyles, k);
    }
  }

  /** `xs` visits every element of `s` exactly once: one iteration order of the Python set `s`. */
  predicate Enumerates(xs: seq<string>, s: set<string>)
  {
    (forall i, j :: 0 <= i < j < |xs| ==> xs[i] != xs[j])
    && (forall x :: x in xs ==> x in s) && (forall x :: x in s ==> x in xs)
  }

  /** The listing iterates the four selection sets of `s`. */
  predicate Lists(listing: Listing, s: Selections)
  {
    Enumerates(listing.agents, s.agents) && Enumerates(listing.commands, s.commands)
    && Enumerates(listing.outputStyles, s.outputStyles) && Enumerates(listing.mcpServers, s.mcpServers)
  }

  /** `for x in s`: visits each element of the set once, in an order the model leaves open. */
  method Enumerate(s: set<string>) returns (xs: seq<string>)
    ensures Enumerates(xs, s)
    ensures |xs| == |s|
  {
    xs := [];
    var rest := s;
    while rest != {}
      invariant rest <= s
      invariant |xs| + |rest| == |s|
      invariant forall x :: x in xs <==> x in s && x !in rest
      invariant forall i, j :: 0 <= i < j < |xs| ==> xs[i] != xs[j]
      decreases rest
    {
      var x :| x in rest;
      xs := xs + [x];
      rest := rest - {x};
    }
  }

  /** The order in which `generate_claude_md` visits the configuration's four selection sets. */
  method IterationOrder(s: Selections) returns (listing: Listing)
    ensures Lists(listing, s)
  {
    var agents := Enumerate(s.agents);
    var commands := Enumerate(s.commands);
    var outputStyles := Enumerate(s.outputStyles);
    var mcpServers := Enumerate(s.mcpServers);
    listing := Listing(agents, commands, outputStyles, mcpServers);
  }

  /** An iteration of a set is empty exactly when the set is. */
  lemma EnumeratesEmpty(xs: seq<string>, s: set<string>)
    requires Enumerates(xs, s)
    ensures xs == [] <==> s == {}
  {
    if s != {} {
      var x :| x in s;
      assert x in xs;
    }
    if xs != [] {
      assert xs[0] in s;
    }
  }

  /**
   * Rendering the configuration's selection: the MCP block is the "None selected"
   * line exactly when no server is selected, and each subsection heading appears
   * exactly when its set is non-empty.
   */
  lemma SelectionSections(totalText: string, percentText: string, s: Selections, listing: Listing, servers: seq<McpServer>)
    requires Lists(listing, s)
    ensures McpBlock(listing.mcpServers, servers) == [NoneSelected] <==> s.mcpServers == {}
    ensures AgentsHeading in DocumentLines(totalText, percentText, listing, servers) <==> s.agents != {}
    ensures CommandsHeading in DocumentLines(totalText, percentText, listing, servers) <==> s.commands != {}
    ensures OutputStyleHeading in DocumentLines(totalText, percentText, listing, servers) <==> s.outputStyles != {}
  {
    NoneSelectedIff(listing.mcpServers, servers);
    SubsectionPresentIff(totalText, percentText, listing, servers);
    EnumeratesEmpty(listing.agents, s.agents);
    EnumeratesEmpty(listing.commands, s.commands);
    EnumeratesEmpty(listing.outputStyles, s.outputStyles);
    EnumeratesEmpty(listing.mcpServers, s.mcpServers);
  }

  /** Every selected agent, command and output style of the configuration has its bullet. */
  lemma SelectedComponentsListed(totalText: string, percentText: string, s: Selections, listing: Listing, servers: seq<McpServer>)
    requires Lists(listing, s)
    ensures forall x :: x in s.agents ==> "- " + x in DocumentLines(totalText, percentText, listing, servers)
    ensures forall x :: x in s.commands ==> "- " + x in DocumentLines(totalText, percentText, listing, servers)
    ensures forall x :: x in s.outputStyles ==> "- " + x in DocumentLines(totalText, percentText, listing, servers)
  {
    EveryComponentListed(totalText, percentText, listing, servers);
    forall x | x in s.agents ensures "- " + x in DocumentLines(totalText, percentText, listing, servers) {
      var k :| 0 <= k < |listing.agents| && listing.agents[k] == x;
    }
    forall x | x in s.commands ensures "- " + x in DocumentLines(totalText, percentText, listing, servers) {
      var k :| 0 <= k < |listing.commands| && listing.commands[k] == x;
    }
    forall x | x in s.outputStyles ensures "- " + x in DocumentLines(totalText, percentText, listing, servers) {
      var k :| 0 <= k < |listing.outputStyles| && listing.outputStyles[k] == x;
    }
  }

  /** Every selected server of the configuration that the catalog knows has its two lines. */
  lemma SelectedServersListed(totalText: string, percentText: string, s: Selections, listing: Listing, servers: seq<McpServer>, x: string)
    requires Lists(listing, s)
    requires x in s.mcpServers && FindServer(servers, x).Some?
    ensures "- " + x + ": " + FindServer(servers, x).value.description in DocumentLines(totalText, percentText, listing, servers)
    ensures LoadWhen(FindServer(servers, x).value) in DocumentLines(totalText, percentText, listing, servers)
  {
    var k :| 0 <= k < |listing.mcpServers| && listing.mcpServers[k] == x;
    KnownServerListed(listing.mcpServers, servers, k);
    assert McpBlock(listing.mcpServers, servers) == McpEntries(listing.mcpServers, servers);
  }

  /** No line contains a newline. */
  predicate SingleLines(lines: seq<string>)
  {
    forall i :: 0 <= i < |lines| ==> '\n' !in lines[i]
  }

  /** The catalog's descriptions and hints hold no newline. */
  predicate SingleLineServers(servers: seq<McpServer>)
  {
    forall k :: 0 <= k < |servers| ==>
      '\n' !in servers[k].description && SingleLines(servers[k].whenToLoad)
  }

  lemma ServerLinesSingle(servers: seq<McpServer>, name: string)
    requires '\n' !in name && SingleLineServers(servers)
    ensures SingleLines(ServerLines(servers, name))
  {
    match FindServer(servers, name)
    case None =>
    case Some(server) =>
      var k :| 0 <= k < |servers| && servers[k] == server;
      var hints := if |server.whenToLoad| <= 3 then server.whenToLoad else server.whenToLoad[..3];
      JoinFree(hints, ", ", '\n');
      assert '\n' !in "  Load when: " && '\n' !in ": ";
  }

  lemma {:induction false} McpEntriesSingleLines(names: seq<string>, servers: seq<McpServer>)
    requires SingleLines(names) && SingleLineServers(servers)
    ensures SingleLines(McpEntries(names, servers))
    decreases |names|
  {
    if names != [] {
      var init, last := names[..|names| - 1], names[|names| - 1];
      assert SingleLines(init);
      McpEntriesSingleLines(init, servers);
      ServerLinesSingle(servers, last);
      SingleLinesAppend(McpEntries(init, servers), ServerLines(servers, last));
    }
  }

  lemma {:induction false} BulletsSingleLines(items: seq<string>)
    requires SingleLines(items)
    ensures SingleLines(Bullets(items))
    decreases |items|
  {
    if items != [] {
      BulletsSingleLines(items[..|items| - 1]);
      var a, b := Bullets(items[..|items| - 1]), ["- " + items[|items| - 1]];
      assert forall i :: 0 <= i < |a + b| ==> (a + b)[i] == if i < |a| then a[i] else b[i - |a|];
    }
  }

  lemma SingleLinesAppend(a: seq<string>, b: seq<string>)
    requires SingleLines(a) && SingleLines(b)
    ensures SingleLines(a + b)
  {
    assert forall i :: 0 <= i < |a + b| ==> (a + b)[i] == if i < |a| then a[i] else b[i - |a|];
  }

  lemma HeaderSingleLines(totalText: string, percentText: string)
    requires '\n' !in totalText && '\n' !in percentText
    ensures SingleLines(Header(totalText, percentText))
  {
    var h := Header(totalText, percentText);
    assert '\n' !in "Estimated usage: " && '\n' !in " tokens (~" && '\n' !in "%)";
    assert h[2] == "Estimated usage: " + totalText + " tokens (~" + percentText + "%)";
    TitleLinesSingle();
    McpLinesSingle();
  }

  lemma TitleLinesSingle()
    ensures '\n' !in "# Project Configuration" && '\n' !in "## Token Optimization"
  {
    assert '\n' !in "# Project Configuration";
  }

  lemma McpLinesSingle()
    ensures '\n' !in "## MCP Servers" && '\n' !in "Load only when needed:"
  {
    assert '\n' !in "## MCP Servers";
  }

  lemma MinimalLineSingle()
    ensures '\n' !in MinimalLine
  {
    assert '\n' !in "This configuration " && '\n' !in "keeps initial ";
    assert '\n' !in "token usage minimal.";
  }

  lemma OnDemandLineSingle()
    ensures '\n' !in OnDemandLine
  {
    assert '\n' !in "Load MCP servers " && '\n' !in "on-demand during ";
    assert '\n' !in "your session by saying:";
  }

  lemma ExampleLinesSingle()
    ensures '\n' !in GithubLine && '\n' !in PlaywrightLine && '\n' !in Neo4jLine
  {
    assert '\n' !in "- 'load github mcp' " && '\n' !in "when ready to commit";
    assert '\n' !in "- 'load playwright' " && '\n' !in "for testing";
    assert '\n' !in "- 'load neo4j' " && '\n' !in "for database work";
  }

  lemma InstructionsSingleLines()
    ensures SingleLines(ComponentsBanner) && SingleLines(Instructions)
  {
    MinimalLineSingle();
    OnDemandLineSingle();
    ExampleLinesSingle();
    assert '\n' !in "## Instructions" && '\n' !in "## Active Components";
  }

  /**
   * When none of the inputs holds a newline, splitting the document at its
   * newlines gives back exactly its lines.
   */
  lemma DocumentSplitsIntoLines(totalText: string, percentText: string, listing: Listing, servers: seq<McpServer>)
    requires '\n' !in totalText && '\n' !in percentText
    requires SingleLines(listing.agents) && SingleLines(listing.commands)
    requires SingleLines(listing.outputStyles) && SingleLines(listing.mcpServers)
    requires SingleLineServers(servers)
    ensures Split(Join(DocumentLines(totalText, percentText, listing, servers), "\n"), '\n') ==
            DocumentLines(totalText, percentText, listing, servers)
  {
    var header := Header(totalText, percentText);
    var mcp := McpBlock(listing.mcpServers, servers);
    var agents := Subsection(AgentsHeading, listing.agents);
    var commands := Subsection(CommandsHeading, listing.commands);
    var styles := Subsection(OutputStyleHeading, listing.outputStyles);
    HeaderSingleLines(totalText, percentText);
    InstructionsSingleLines();
    McpEntriesSingleLines(listing.mcpServers, servers);
    BulletsSingleLines(listing.agents);
    BulletsSingleLines(listing.commands);
    BulletsSingleLines(listing.outputStyles);
    SingleLinesAppend([AgentsHeading], Bullets(listing.agents));
    SingleLinesAppend([CommandsHeading], Bullets(listing.commands));
    SingleLinesAppend([OutputStyleHeading], Bullets(listing.outputStyles));
    SingleLinesAppend(header, mcp);
    SingleLinesAppend(header + mcp, ComponentsBanner);
    SingleLinesAppend(header + mcp + ComponentsBanner, agents);
    SingleLinesAppend(header + mcp + ComponentsBanner + agents, commands);
    SingleLinesAppend(header + mcp + ComponentsBanner + agents + commands, styles);
    SingleLinesAppend(header + mcp + ComponentsBanner + agents + commands + styles, Instructions);
    var lines := DocumentLines(totalText, percentText, listing, servers);
    assert lines == header + mcp + ComponentsBanner + agents + commands + styles + Instructions;
    SplitJoin(lines, '\n');
  }

  /** A project with one agent and nothing else selected. */
  lemma SingleAgentDocument(totalText: string, percentText: string, servers: seq<McpServer>)
    ensures DocumentLines(totalText, percentText, Listing(["code-reviewer"], [], [], []), servers) ==
            Header(totalText, percentText) + [NoneSelected, "", "## Active Components", "### Agents", "- code-reviewer"] + Instructions
  {
    var agents := ["code-reviewer"];
    assert agents[..0] == [];
    assert Bullets(agents) == Bullets(agents[..0]) + ["- " + agents[0]];
    assert "- " + agents[0] == "- code-reviewer";
  }
}
