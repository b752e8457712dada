/**
 * The two checklist widgets. Each holds a reference to the project's
 * configuration and the category whose set it shares; a checkbox change
 * decodes the box's id and adds or discards the recovered name in that set.
 */
module Selectors {
  import opened Catalog
  import opened WidgetIds
  import opened Project

  /** `ComponentSelector`: one checkbox per agent, command or output style. */
  class ComponentSelector {
    const title: string
    const components: seq<Component>
    const config: ProjectConfig
    const category: Category

    constructor (title: string, components: seq<Component>, config: ProjectConfig, category: Category)
      ensures this.title == title && this.components == components
      ensures this.config == config && this.category == category
    {
      this.title := title;
      this.components := components;
      this.config := config;
      this.category := category;
    }

    /** The id of the checkbox shown for the `i`-th component. */
    function CheckboxId(i: nat): (id: string)
      requires i < |components|
      ensures ' ' !in id && '-' !in id
    {
      ComponentId(title, components[i].name)
    }

    /** `on_checkbox_changed`: adds or discards the name decoded from the box's id. */
    method OnCheckboxChanged(id: string, value: bool)
      modifies config
      ensures config.Selected() == old(config.Selected()).With(category, DecodeId(id), value)
    {
      var componentName := DecodeId(id);
      if value {
        config.Add(category, componentName);
      } else {
        config.Discard(category, componentName);
      }
    }
  }

  /** `MCPServerSelector`: one checkbox per MCP server, sharing the MCP server set. */
  class McpServerSelector {
    const servers: seq<McpServer>
    const config: ProjectConfig

    constructor (servers: seq<McpServer>, config: ProjectConfig)
      ensures this.servers == servers && this.config == config
    {
      this.servers := servers;
      this.config := config;
    }

    /** The id of the checkbox shown for the `i`-th server. */
    function CheckboxId(i: nat): (id: string)
      requires i < |servers|
      ensures ' ' !in id && '-' !in id
    {
      McpId(servers[i].name)
    }

    /** `on_checkbox_changed`: adds or discards the server name decoded from the box's id. */
    method OnCheckboxChanged(id: string, value: bool)
      modifies config
      ensures config.Selected() == old(config.Selected()).With(McpServers, DecodeId(id), value)
    {
      var serverName := DecodeId(id);
      if value {
        config.Add(McpServers, serverName);
      } else {
        config.Discard(McpServers, serverName);
      }
    }
  }

  /**
   * Checking an MCP server's box selects exactly that server when its name has no
   * space or `_`, and raises the estimate by its declared usage when it was not
   * selected.
   */
  lemma CheckingServerBox(s: Selections, name: string, tokenUsage: map<string, int>)
    requires ' ' !in name && '_' !in name
    requires name !in s.mcpServers
    ensures s.With(McpServers, DecodeId(McpId(name)), true).mcpServers == s.mcpServers + {name}
    ensures Cost(s.With(McpServers, DecodeId(McpId(name)), true), tokenUsage) == Cost(s, tokenUsage) + Usage(tokenUsage, name)
  {
    McpRoundTrip(name);
    CheckAddsUnitCost(s, McpServers, name, tokenUsage);
  }

  /**
   * Checking an output style's box selects "styles-" + the style's name rather
   * than the name itself, so the style's own name stays unselected.
   */
  lemma CheckingOutputStyleBox(s: Selections, title: string, name: string)
    requires title == "Output Styles"
    requires ' ' !in name && '_' !in name
    requires name !in s.outputStyles
    ensures s.With(OutputStyles, DecodeId(ComponentId(title, name)), true).outputStyles == s.outputStyles + {"styles-" + name}
    ensures name !in s.With(OutputStyles, DecodeId(ComponentId(title, name)), true).outputStyles
  {
    OutputStylesKey(title, name);
    assert |"styles-" + name| != |name|;
  }
}
