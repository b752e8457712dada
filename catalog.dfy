/** The catalog records the manager loads once at start-up and never changes. */
module Catalog {

  /** One text component (agent, command or output style); the file it was read from is not modelled. */
  datatype Component = Component(name: string, category: string, description: string, tokenUsage: int)

  /** One MCP server, as deserialised from its `config.json`. */
  datatype McpServer = McpServer(
    name: string,
    description: string,
    tokenUsage: int,
    toolsCount: int,
    category: string,
    useCases: seq<string>,
    whenToLoad: seq<string>)
}
