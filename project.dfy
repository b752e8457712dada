/**
 * The selection state of one project (`ProjectConfig`), its token estimate, the
 * colour band of the token display, and the importer that seeds the selection
 * from an existing CLAUDE.md.
 */
module Project {
  import opened Wrappers
  import opened Strings

  /** The four selectable categories; each has its own set of chosen names. */
  datatype Category = Agents | Commands | OutputStyles | McpServers

  /** The value of the four selection sets at one moment. */
  datatype Selections = Selections(
    agents: set<string>,
    commands: set<string>,
    outputStyles: set<string>,
    mcpServers: set<string>)
  {
    function Get(c: Category): set<string>
    {
      match c
      case Agents => agents
      case Commands => commands
      case OutputStyles => outputStyles
      case McpServers => mcpServers
    }

    /** The selection after `add(name)` (checked) or `discard(name)` (unchecked) on the set of `c`. */
    function With(c: Category, name: string, checked: bool): (s: Selections)
      ensures s.Get(c) == if checked then Get(c) + {name} else Get(c) - {name}
      ensures forall d :: d != c ==> s.Get(d) == Get(d)
    {
      var updated := if checked then Get(c) + {name} else Get(c) - {name};
      match c
      case Agents => this.(agents := updated)
      case Commands => this.(commands := updated)
      case OutputStyles => this.(outputStyles := updated)
      case McpServers => this.(mcpServers := updated)
    }
  }

  const NoSelections := Selections({}, {}, {}, {})

  /** Flat token estimates of the three text-component categories. */
  const AgentTokens := 200
  const CommandTokens := 150
  const OutputStyleTokens := 100

  /**
   * The `token_usage` that server `name`'s `config.json` declares; 0 when the
   * server has no configuration or the configuration has no such key.
   */
  function Usage(tokenUsage: map<string, int>, name: string): int
  {
    if name in tokenUsage then tokenUsage[name] else 0
  }

  /** The sum of `Usage` over a set of server names. */
  ghost function McpTokens(names: set<string>, tokenUsage: map<string, int>): int
  {
    if names == {} then 0
    else
      var n :| n in names;
      Usage(tokenUsage, n) + McpTokens(names - {n}, tokenUsage)
  }

  /** The token estimate of a selection (`ProjectConfig.total_tokens`). */
  ghost function Cost(s: Selections, tokenUsage: map<string, int>): int
  {
    McpTokens(s.mcpServers, tokenUsage)
    + AgentTokens * |s.agents| + CommandTokens * |s.commands| + OutputStyleTokens * |s.outputStyles|
  }

  /** What one selected name of category `c` adds to the estimate. */
  function UnitCost(c: Category, name: string, tokenUsage: map<string, int>): int
  {
    match c
    case Agents => AgentTokens
    case Commands => CommandTokens
    case OutputStyles => OutputStyleTokens
    case McpServers => Usage(tokenUsage, name)
  }

  /** The sum does not depend on the order the names are visited in: any one of them can be taken out first. */
  lemma {:induction false} McpTokensRemove(names: set<string>, tokenUsage: map<string, int>, n: string)
    requires n in names
    ensures McpTokens(names, tokenUsage) == Usage(tokenUsage, n) + McpTokens(names - {n}, tokenUsage)
  {
    var m :| m in names && McpTokens(names, tokenUsage) == Usage(tokenUsage, m) + McpTokens(names - {m}, tokenUsage);
    if m != n {
      McpTokensRemove(names - {m}, tokenUsage, n);
      McpTokensRemove(names - {n}, tokenUsage, m);
      assert names - {m} - {n} == names - {n} - {m};
    }
  }

  /** Names without a configuration add nothing: only the known servers are summed. */
  lemma {:induction false} McpTokensKnownOnly(names: set<string>, tokenUsage: map<string, int>)
    ensures McpTokens(names, tokenUsage) == McpTokens(names * tokenUsage.Keys, tokenUsage)
  {
    if names != {} {
      var n :| n in names;
      McpTokensRemove(names, tokenUsage, n);
      McpTokensKnownOnly(names - {n}, tokenUsage);
      if n in tokenUsage {
        McpTokensRemove(names * tokenUsage.Keys, tokenUsage, n);
        assert (names - {n}) * tokenUsage.Keys == names * tokenUsage.Keys - {n};
      } else {
        assert (names - {n}) * tokenUsage.Keys == names * tokenUsage.Keys;
      }
    }
  }

  /** A selection of servers none of which has a configuration costs nothing. */
  lemma UnknownServersCostNothing(names: set<string>, tokenUsage: map<string, int>)
    requires names !! tokenUsage.Keys
    ensures McpTokens(names, tokenUsage) == 0
  {
    McpTokensKnownOnly(names, tokenUsage);
    assert names * tokenUsage.Keys == {};
  }

  /** Checking a name that was not selected raises the estimate by that name's unit cost. */
  lemma CheckAddsUnitCost(s: Selections, c: Category, name: string, tokenUsage: map<string, int>)
    requires name !in s.Get(c)
    ensures Cost(s.With(c, name, true), tokenUsage) == Cost(s, tokenUsage) + UnitCost(c, name, tokenUsage)
  {
    var t := s.With(c, name, true);
    if c == McpServers {
      McpTokensRemove(t.mcpServers, tokenUsage, name);
      assert t.mcpServers - {name} == s.mcpServers;
    }
  }

  /** Unchecking a selected name lowers the estimate by that name's unit cost. */
  lemma UncheckRemovesUnitCost(s: Selections, c: Category, name: string, tokenUsage: map<string, int>)
    requires name in s.Get(c)
    ensures Cost(s.With(c, name, false), tokenUsage) == Cost(s, tokenUsage) - UnitCost(c, name, tokenUsage)
  {
    var t := s.With(c, name, false);
    assert t.Get(c) + {name} == s.Get(c);
    assert t.With(c, name, true) == s;
    CheckAddsUnitCost(t, c, name, tokenUsage);
  }

  /**
   * Checking and then unchecking a name that was not selected restores the
   * selection, hence the estimate; no other category is touched on the way.
   */
  lemma CheckUncheckRestores(s: Selections, c: Category, name: string, tokenUsage: map<string, int>)
    requires name !in s.Get(c)
    ensures s.With(c, name, true).With(c, name, false) == s
    ensures forall d :: d != c ==> s.With(c, name, true).Get(d) == s.Get(d)
    ensures Cost(s.With(c, name, true).With(c, name, false), tokenUsage) == Cost(s, tokenUsage)
  {
    var t := s.With(c, name, true).With(c, name, false);
    assert t.Get(c) == s.Get(c);
    assert forall d :: t.Get(d) == s.Get(d);
  }

  /** One agent and nothing else costs 200 tokens. */
  lemma SingleAgentCost(tokenUsage: map<string, int>)
    ensures Cost(NoSelections.(agents := {"code-reviewer"}), tokenUsage) == 200
  {
  }

  /** A 5000-token server with two agents and one command costs 5550 tokens. */
  lemma ServerAgentsCommandCost()
    ensures Cost(Selections({"code-reviewer", "test-runner"}, {"review"}, {}, {"github"}), map["github" := 5000]) == 5550
  {
    McpTokensRemove({"github"}, map["github" := 5000], "github");
    assert {"github"} - {"github"} == {};
  }

  /** The colours of the token display. */
  datatype Color = Green | Yellow | Red

  /** `get_token_text`'s colour: by the estimate's percentage of a 200000-token context window. */
  function TokenColor(total: int): Color
  {
    var percentage := (total as real / 200000.0) * 100.0;
    if percentage < 5.0 then Green else if percentage < 10.0 then Yellow else Red
  }

  /** The colour bands in whole tokens: green below 10000, yellow below 20000, red from there on. */
  lemma TokenColorBands(total: int)
    ensures TokenColor(total) == Green <==> total < 10000
    ensures TokenColor(total) == Yellow <==> 10000 <= total < 20000
    ensures TokenColor(total) == Red <==> 20000 <= total
  {
  }

  function Severity(c: Color): nat
  {
    match c
    case Green => 0
    case Yellow => 1
    case Red => 2
  }

  /** A larger estimate never shows a milder colour. */
  lemma TokenColorMonotonic(a: int, b: int)
    requires a <= b
    ensures Severity(TokenColor(a)) <= Severity(TokenColor(b))
  {
    TokenColorBands(a);
    TokenColorBands(b);
  }

  /** A project's selection state; the four sets are shared with, and updated by, the selectors. */
  class ProjectConfig {
    const projectPath: string
    const existingClaudeMd: Option<string>
    const isExisting: bool
    var selectedAgents: set<string>
    var selectedCommands: set<string>
    var selectedOutputStyles: set<string>
    var selectedMcpServers: set<string>

    function Selected(): Selections
      reads this
    {
      Selections(selectedAgents, selectedCommands, selectedOutputStyles, selectedMcpServers)
    }

    constructor (projectPath: string, existingClaudeMd: Option<string>, isExisting: bool)
      ensures this.projectPath == projectPath
      ensures this.existingClaudeMd == existingClaudeMd && this.isExisting == isExisting
      ensures Selected() == NoSelections
    {
      this.projectPath := projectPath;
      this.existingClaudeMd := existingClaudeMd;
      this.isExisting := isExisting;
      selectedAgents, selectedCommands, selectedOutputStyles, selectedMcpServers := {}, {}, {}, {};
    }

    /**
     * `total_tokens`: sums the declared usage of every selected server, then adds
     * the flat estimate of each selected text component.
     */
    method TotalTokens(tokenUsage: map<string, int>) returns (total: int)
      ensures total == Cost(Selected(), tokenUsage)
    {
      total := 0;
      var rest := selectedMcpServers;
      while rest != {}
        invariant rest <= selectedMcpServers
        invariant total + McpTokens(rest, tokenUsage) == McpTokens(selectedMcpServers, tokenUsage)
        decreases rest
      {
        var serverName :| serverName in rest;
        McpTokensRemove(rest, tokenUsage, serverName);
        total := total + Usage(tokenUsage, serverName);
        rest := rest - {serverName};
      }
      total := total + |selectedAgents| * AgentTokens;
      total := total + |selectedCommands| * CommandTokens;
      total := total + |selectedOutputStyles| * OutputStyleTokens;
    }

    /** `selected.add(name)` on the set of category `c`. */
    method Add(c: Category, name: string)
      modifies this
      ensures Selected() == old(Selected()).With(c, name, true)
    {
      match c
      case Agents => selectedAgents := selectedAgents + {name};
      case Commands => selectedCommands := selectedCommands + {name};
      case OutputStyles => selectedOutputStyles := selectedOutputStyles + {name};
      case McpServers => selectedMcpServers := selectedMcpServers + {name};
    }

    /** `selected.discard(name)` on the set of category `c`. */
    method Discard(c: Category, name: string)
      modifies this
      ensures Selected() == old(Selected()).With(c, name, false)
    {
      match c
      case Agents => selectedAgents := selectedAgents - {name};
      case Commands => selectedCommands := selectedCommands - {name};
      case OutputStyles => selectedOutputStyles := selectedOutputStyles - {name};
      case McpServers => selectedMcpServers := selectedMcpServers - {name};
    }
  }

  /** The agents the importer recognises in a CLAUDE.md text. */
  function ImportedAgents(content: string): (r: set<string>)
    ensures r <= {"code-reviewer", "test-runner"}
    ensures "code-reviewer" in r <==> exists i :: OccursAt(content, "code-reviewer", i)
    ensures "test-runner" in r <==> exists i :: OccursAt(content, "test-runner", i)
  {
    ContainsIff(content, "code-reviewer");
    ContainsIff(content, "test-runner");
    (if Contains(content, "code-reviewer") then {"code-reviewer"} else {})
    + (if Contains(content, "test-runner") then {"test-runner"} else {})
  }

  /**
   * `parse_existing_config`: when the project has a CLAUDE.md, whose text is
   * `content`, adds each known agent name that text mentions; removes nothing.
   */
  method ParseExistingConfig(config: ProjectConfig, content: string)
    modifies config
    ensures config.existingClaudeMd.None? ==> config.Selected() == old(config.Selected())
    ensures config.existingClaudeMd.Some? ==>
              config.Selected() == old(config.Selected()).(agents := old(config.selectedAgents) + ImportedAgents(content))
  {
    if config.existingClaudeMd.None? {
      return;
    }
    if Contains(content, "code-reviewer") {
      config.Add(Agents, "code-reviewer");
    }
    if Contains(content, "test-runner") {
      config.Add(Agents, "test-runner");
    }
  }

  /**
   * `detect_project`: the configuration of the project at `projectPath`, whose
   * `.claude/CLAUDE.md` has text `claudeMd` (None when there is no such file).
   */
  method DetectProject(projectPath: string, claudeMd: Option<string>) returns (config: ProjectConfig)
    ensures fresh(config)
    ensures config.projectPath == projectPath
    ensures config.isExisting == claudeMd.Some?
    ensures config.existingClaudeMd == if claudeMd.Some? then Some(projectPath + "/.claude/CLAUDE.md") else None
    ensures config.Selected() == NoSelections.(agents := if claudeMd.Some? then ImportedAgents(claudeMd.value) else {})
  {
    var path := projectPath + "/.claude/CLAUDE.md";
    config := new ProjectConfig(projectPath, if claudeMd.Some? then Some(path) else None, claudeMd.Some?);
    if config.isExisting {
      ParseExistingConfig(config, claudeMd.value);
    }
  }
}
