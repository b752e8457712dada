/**
 * Checkbox ids of the two selector widgets, and the name their change handlers
 * recover from an id. An id is built by character replacement
 * (`ComponentSelector.compose`, `MCPServerSelector.compose`) and decoded by
 * `id.split("_", 1)` followed by `replace("_", "-")` (`on_checkbox_changed`).
 */
module WidgetIds {
  import opened Wrappers
  import opened Strings

  /** One character of a cleaned title: lower-cased, with a space or a dash turned into `_`. */
  function TitleChar(ch: char): char
  {
    var l := LowerChar(ch);
    if l == ' ' || l == '-' then '_' else l
  }

  /** One character of a cleaned name: a space or a dash turned into `_`. */
  function NameChar(ch: char): char
  {
    if ch == ' ' || ch == '-' then '_' else ch
  }

  /** `title.lower().replace(' ', '_').replace('-', '_')`. */
  function TitleClean(title: string): (t: string)
    ensures |t| == |title|
    ensures forall i :: 0 <= i < |title| ==> t[i] == TitleChar(title[i])
  {
    Replace(Replace(Lower(title), ' ', '_'), '-', '_')
  }

  /** `name.replace('-', '_').replace(' ', '_')`. */
  function NameClean(name: string): (n: string)
    ensures |n| == |name|
    ensures forall i :: 0 <= i < |name| ==> n[i] == NameChar(name[i])
  {
    Replace(Replace(name, '-', '_'), ' ', '_')
  }

  /** The id of a component checkbox: `f"{title_clean}_{name_clean}"`; it never holds a space or a dash. */
  function ComponentId(title: string, name: string): (id: string)
    ensures ' ' !in id && '-' !in id
    ensures |id| == |title| + 1 + |name|
  {
    TitleClean(title) + "_" + NameClean(name)
  }

  /** The id of an MCP server checkbox: `f"mcp_{server_name_clean}"`; it never holds a space or a dash. */
  function McpId(name: string): (id: string)
    ensures ' ' !in id && '-' !in id
    ensures |id| == 4 + |name|
  {
    "mcp_" + NameClean(name)
  }

  /**
   * The second part of `id.split("_", 1)`: the text after the first `_`, or None
   * when `id` has no `_` (the split then has one part).
   */
  function AfterFirstUnderscore(id: string): (r: Option<string>)
    ensures r.None? <==> '_' !in id
    ensures r.Some? ==> |r.value| < |id|
    ensures r.Some? ==> var k := |id| - |r.value| - 1;
                        id == id[..k] + "_" + r.value && '_' !in id[..k]
  {
    if id == [] then None
    else if id[0] == '_' then Some(id[1..])
    else
      var rest := AfterFirstUnderscore(id[1..]);
      assert id == [id[0]] + id[1..];
      rest
  }

  /**
   * The selection key a change handler derives from a checkbox id: the text after
   * the first `_` (or all of it when there is none) with every `_` turned into `-`.
   */
  function DecodeId(id: string): (name: string)
    ensures '_' !in name
    ensures '_' !in id ==> name == id
    ensures '_' in id ==> |name| < |id|
  {
    var rest := match AfterFirstUnderscore(id) case Some(tail) => tail case None => id;
    Replace(rest, '_', '-')
  }

  /** The key a name decodes to: every `-`, space and `_` of it becomes `-`. */
  function Key(name: string): (k: string)
    ensures |k| == |name|
    ensures forall i :: 0 <= i < |name| ==>
              k[i] == if name[i] == '-' || name[i] == ' ' || name[i] == '_' then '-' else name[i]
  {
    Replace(NameClean(name), '_', '-')
  }

  /** A name is its own key exactly when it holds no space and no `_`. */
  lemma KeyIsName(name: string)
    ensures Key(name) == name <==> ' ' !in name && '_' !in name
  {
    if ' ' !in name && '_' !in name {
      assert forall i :: 0 <= i < |name| ==> Key(name)[i] == name[i];
    } else if ' ' in name {
      var i :| 0 <= i < |name| && name[i] == ' ';
      assert Key(name)[i] != name[i];
    } else {
      var i :| 0 <= i < |name| && name[i] == '_';
      assert Key(name)[i] != name[i];
    }
  }

  /** The text after the first `_` of `p + "_" + q`, when `p` has none, is `q`. */
  lemma {:induction false} AfterFirstUnderscoreOf(p: string, q: string)
    requires '_' !in p
    ensures AfterFirstUnderscore(p + "_" + q) == Some(q)
  {
    var id := p + "_" + q;
    if p == [] {
      assert id == ['_'] + q;
    } else {
      assert id[0] == p[0] && p[0] != '_';
      assert id[1..] == p[1..] + "_" + q;
      AfterFirstUnderscoreOf(p[1..], q);
    }
  }

  /** A cleaned title has a `_` exactly when the title has a space, a dash or a `_`. */
  lemma TitleCleanUnderscore(title: string)
    ensures '_' in TitleClean(title) <==> ' ' in title || '-' in title || '_' in title
  {
    var t := TitleClean(title);
    assert |t| == |title|;
    assert forall i :: 0 <= i < |title| ==>
      (t[i] == '_' <==> title[i] == ' ' || title[i] == '-' || title[i] == '_');
    if ' ' in title || '-' in title || '_' in title {
      var i :| 0 <= i < |title| && (title[i] == ' ' || title[i] == '-' || title[i] == '_');
      assert t[i] == '_';
    }
  }

  /** The first `_` of `t + "_" + n` is the first `_` of `t` when `t` has one. */
  lemma AfterFirstUnderscoreOfJoined(t: string, n: string)
    requires AfterFirstUnderscore(t).Some?
    ensures AfterFirstUnderscore(t + "_" + n) == Some(AfterFirstUnderscore(t).value + "_" + n)
  {
    var tail := AfterFirstUnderscore(t).value;
    var p := t[..|t| - |tail| - 1];
    assert t == p + "_" + tail && '_' !in p;
    UnderscoreAssoc(p, tail, n);
    AfterFirstUnderscoreOf(p, tail + "_" + n);
  }

  lemma UnderscoreAssoc(a: string, b: string, c: string)
    ensures a + "_" + b + "_" + c == a + "_" + (b + "_" + c)
  {
  }

  /** What the handler recovers from `t + "_" + n`, by whether `t` holds a `_`. */
  lemma DecodeJoined(t: string, n: string)
    ensures AfterFirstUnderscore(t).None? ==> DecodeId(t + "_" + n) == Replace(n, '_', '-')
    ensures AfterFirstUnderscore(t).Some? ==>
              DecodeId(t + "_" + n) == Replace(AfterFirstUnderscore(t).value, '_', '-') + "-" + Replace(n, '_', '-')
  {
    if AfterFirstUnderscore(t).None? {
      AfterFirstUnderscoreOf(t, n);
    } else {
      var tail := AfterFirstUnderscore(t).value;
      AfterFirstUnderscoreOfJoined(t, n);
      ReplaceAppend(tail + "_", n, '_', '-');
      ReplaceAppend(tail, "_", '_', '-');
      assert Replace("_", '_', '-') == "-";
    }
  }

  /**
   * What a component handler recovers from a component id: the key of the name,
   * preceded by the rest of the cleaned title and a `-` when the cleaned title
   * itself holds a `_`.
   */
  lemma DecodeComponentId(title: string, name: string)
    ensures AfterFirstUnderscore(TitleClean(title)).None? ==>
              DecodeId(ComponentId(title, name)) == Key(name)
    ensures AfterFirstUnderscore(TitleClean(title)).Some? ==>
              DecodeId(ComponentId(title, name)) ==
              Replace(AfterFirstUnderscore(TitleClean(title)).value, '_', '-') + "-" + Key(name)
  {
    DecodeJoined(TitleClean(title), NameClean(name));
  }

  /**
   * A component's name survives the id round trip exactly when the title has no
   * space, dash or `_` and the name has no space or `_`.
   */
  lemma ComponentRoundTrip(title: string, name: string)
    ensures DecodeId(ComponentId(title, name)) == name <==>
              (' ' !in title && '-' !in title && '_' !in title && ' ' !in name && '_' !in name)
  {
    DecodeComponentId(title, name);
    TitleCleanUnderscore(title);
    KeyIsName(name);
  }

  /** An MCP server's name survives the id round trip exactly when it has no space and no `_`. */
  lemma McpRoundTrip(name: string)
    ensures DecodeId(McpId(name)) == Key(name)
    ensures DecodeId(McpId(name)) == name <==> ' ' !in name && '_' !in name
  {
    assert McpId(name) == "mcp" + "_" + NameClean(name);
    DecodeJoined("mcp", NameClean(name));
    KeyIsName(name);
  }

  /** A string that agrees with the cleaning rule at every position is the cleaned title. */
  lemma TitleCleanIs(title: string, clean: string)
    requires |title| == |clean|
    requires forall i :: 0 <= i < |title| ==>
               clean[i] == TitleChar(title[i])
    ensures TitleClean(title) == clean
  {
    assert forall i :: 0 <= i < |title| ==> TitleClean(title)[i] == clean[i];
  }

  /** The split at a known first `_`. */
  lemma AfterFirstUnderscoreIs(id: string, k: nat)
    requires k < |id| && id[k] == '_' && '_' !in id[..k]
    ensures AfterFirstUnderscore(id) == Some(id[k + 1..])
  {
    assert id == id[..k] + "_" + id[k + 1..];
    AfterFirstUnderscoreOf(id[..k], id[k + 1..]);
  }

  // The facts about the three selector titles below take each title as a
  // parameter equal to its literal (`requires t == "..."`). Applying the
  // recursive cleaning and splitting functions to the literals directly makes
  // each proof exceed the verifier's resource budget.

  /** The "Agents" and "Commands" titles have no space, dash or `_`. */
  lemma PlainTitleText(title: string)
    requires title == "Agents" || title == "Commands"
    ensures ' ' !in title && '-' !in title && '_' !in title
  {
  }

  /** The cleaned title of the "Agents" selector holds no `_`. */
  lemma AgentsTitlePlain(agents: string)
    requires agents == "Agents"
    ensures AfterFirstUnderscore(TitleClean(agents)).None?
  {
    PlainTitleText(agents);
    TitleCleanUnderscore(agents);
  }

  /** The cleaned title of the "Commands" selector holds no `_`. */
  lemma CommandsTitlePlain(commands: string)
    requires commands == "Commands"
    ensures AfterFirstUnderscore(TitleClean(commands)).None?
  {
    PlainTitleText(commands);
    TitleCleanUnderscore(commands);
  }

  /** The cleaned title of the "Output Styles" selector is "output_styles". */
  lemma OutputStylesClean(styles: string)
    requires styles == "Output Styles"
    ensures TitleClean(styles) == "output_styles"
  {
    TitleCleanIs(styles, "output_styles");
  }

  /** The first `_` of "output_styles" precedes "styles". */
  lemma OutputStylesSplit(clean: string)
    requires clean == "output_styles"
    ensures AfterFirstUnderscore(clean) == Some("styles")
  {
    var first, rest := clean[..6], clean[7..];
    assert clean == first + "_" + rest;
    assert '_' !in first;
    AfterFirstUnderscoreOf(first, rest);
  }

  /** What `split("_", 1)` leaves of the "Output Styles" selector's cleaned title. */
  lemma OutputStylesTitle(styles: string)
    requires styles == "Output Styles"
    ensures AfterFirstUnderscore(TitleClean(styles)) == Some("styles")
  {
    OutputStylesClean(styles);
    OutputStylesSplit(TitleClean(styles));
  }

  /**
   * The "Output Styles" selector: its cleaned title "output_styles" holds a `_`,
   * so the key recovered for a style is "styles-" followed by the style's key.
   */
  lemma OutputStylesKey(title: string, name: string)
    requires title == "Output Styles"
    ensures DecodeId(ComponentId(title, name)) == "styles-" + Key(name)
    ensures ' ' !in name && '_' !in name ==> DecodeId(ComponentId(title, name)) == "styles-" + name
  {
    OutputStylesTitle(title);
    var tail := AfterFirstUnderscore(TitleClean(title)).value;
    StylesTail(tail);
    TailKey(title, name, tail);
  }

  lemma StylesTail(tail: string)
    requires tail == "styles"
    ensures '_' !in tail && tail + "-" == "styles-"
  {
  }

  /** A component of a selector whose cleaned title has `tail` after its first `_` (with no `_` in it). */
  lemma TailKey(title: string, name: string, tail: string)
    requires AfterFirstUnderscore(TitleClean(title)) == Some(tail) && '_' !in tail
    ensures DecodeId(ComponentId(title, name)) == tail + "-" + Key(name)
    ensures ' ' !in name && '_' !in name ==> DecodeId(ComponentId(title, name)) == tail + "-" + name
  {
    ReplaceAbsent(tail, '_', '-');
    DecodeComponentId(title, name);
    KeyIsName(name);
  }

  /** The "Agents" and "Commands" selectors give back every name without a space or `_`. */
  lemma AgentsAndCommandsRoundTrip(name: string)
    requires ' ' !in name && '_' !in name
    ensures DecodeId(ComponentId("Agents", name)) == name
    ensures DecodeId(ComponentId("Commands", name)) == name
  {
    AgentsTitlePlain("Agents");
    CommandsTitlePlain("Commands");
    DecodeComponentId("Agents", name);
    DecodeComponentId("Commands", name);
    KeyIsName(name);
  }

  /** A string that agrees with the cleaning rule at every position is the cleaned name. */
  lemma NameCleanIs(name: string, clean: string)
    requires |name| == |clean|
    requires forall i :: 0 <= i < |name| ==>
               clean[i] == NameChar(name[i])
    ensures NameClean(name) == clean
  {
    assert forall i :: 0 <= i < |name| ==> NameClean(name)[i] == clean[i];
  }

  /** Names that differ only in `-`, space or `_` get the same MCP checkbox id. */
  lemma McpIdCollision(dash: string, space: string, underscore: string)
    requires dash == "my-server" && space == "my server" && underscore == "my_server"
    ensures McpId(dash) == McpId(space) == McpId(underscore)
  {
    NameCleanIs(dash, "my_server");
    NameCleanIs(space, "my_server");
    NameCleanIs(underscore, "my_server");
  }
}
