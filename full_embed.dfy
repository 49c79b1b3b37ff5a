/** The full-embed extension plugin: the flags it gives schema nodes in a tree dump, its
    trivial info printer and context factory, and its registration record. */
module FullEmbed {
  import opened LyCommon

  /** The LYS_USES bit of a schema node's 16-bit node type (libyang's tree_schema.h). */
  const LysUses: bv16 := 0x0800

  const UsesFlags: string := "-u"
  const NeutralFlags: string := "--"

  predicate IsUses(nodetype: bv16) {
    nodetype & LysUses != 0
  }

  /** full_embed_sprinter_node: the flags written for a node of the given type. */
  function SprinterNode(nodetype: bv16): (flags: string)
    ensures flags == UsesFlags <==> IsUses(nodetype)
    ensures flags == NeutralFlags <==> !IsUses(nodetype)
  {
    if nodetype & LysUses != 0 then UsesFlags else NeutralFlags
  }

  /** The flags depend on the node type's LYS_USES bit and on no other bit. */
  lemma FlagsDependOnlyOnUsesBit(a: bv16, b: bv16)
    requires a & LysUses == b & LysUses
    ensures SprinterNode(a) == SprinterNode(b)
  {
  }

  /** A compiled schema node (struct lysc_node) and a parsed one (struct lysp_node), of which
      the adapters read only the node type. */
  datatype CompiledNode = CompiledNode(nodetype: bv16, name: string)
  datatype ParsedNode = ParsedNode(nodetype: bv16, name: string)

  /** What a per-node callback leaves behind: its return code and the values of its `flags`,
      `skip` and `add_opts` out-parameters. */
  datatype SprinterOut = SprinterOut(rc: LyErr, flags: string, skip: bool, addOpts: Option<string>)

  /** full_embed_sprinter_cnode; `skip` and `addOpts` are the values the caller's variables held. */
  function SprinterCNode(node: CompiledNode, skip: bool, addOpts: Option<string>): (out: SprinterOut)
    ensures out.rc == Success && out.skip == skip && out.addOpts == addOpts
    ensures out.flags == UsesFlags <==> IsUses(node.nodetype)
    ensures out.flags == NeutralFlags <==> !IsUses(node.nodetype)
  {
    SprinterOut(Success, SprinterNode(node.nodetype), skip, addOpts)
  }

  /** full_embed_sprinter_pnode. */
  function SprinterPNode(node: ParsedNode, skip: bool, addOpts: Option<string>): (out: SprinterOut)
    ensures out.rc == Success && out.skip == skip && out.addOpts == addOpts
    ensures out.flags == UsesFlags <==> IsUses(node.nodetype)
    ensures out.flags == NeutralFlags <==> !IsUses(node.nodetype)
  {
    SprinterOut(Success, SprinterNode(node.nodetype), skip, addOpts)
  }

  /** The compiled-tree and parsed-tree adapters treat a node type identically. */
  lemma AdaptersAgree(c: CompiledNode, p: ParsedNode, skip: bool, addOpts: Option<string>)
    requires c.nodetype == p.nodetype
    ensures SprinterCNode(c, skip, addOpts) == SprinterPNode(p, skip, addOpts)
  {
  }

  /** full_embed_printer_info: `printed` is the flag the generic info printer set; the
      callback passes it on and succeeds whatever that printer did. */
  function PrinterInfo(printed: bool): (out: (LyErr, bool))
    ensures out.0 == Success && out.1 == printed
  {
    (Success, printed)
  }

  /** A schema context (struct ly_ctx), known here only by identity. */
  datatype Context = Context(id: nat)

  /** lyplg_ext_full_embed_create_context: `ctx` is what the caller's context variable held;
      it comes back as it was, with LY_SUCCESS. */
  function CreateContext(ctx: Option<Context>): (out: (LyErr, Option<Context>))
    ensures out.0 == Success && out.1 == ctx
  {
    (Success, ctx)
  }

  /** The callbacks the plugin's slots can point to. */
  datatype Callback =
    | FullEmbedParse
    | FullEmbedCompile
    | FullEmbedPrinterInfo
    | FullEmbedSprinterCTree
    | FullEmbedSprinterPTree
    | FullEmbedPFree
    | FullEmbedCFree

  /** struct lyplg_ext: the plugin id and its callback slots (None is NULL). */
  datatype ExtPlugin = ExtPlugin(
    id: Option<string>,
    parse: Option<Callback>,
    compile: Option<Callback>,
    printerInfo: Option<Callback>,
    printerCTree: Option<Callback>,
    printerPTree: Option<Callback>,
    node: Option<Callback>,
    snode: Option<Callback>,
    validate: Option<Callback>,
    pfree: Option<Callback>,
    cfree: Option<Callback>)

  /** struct lyplg_ext_record: the (module, revision, name) key and the plugin. */
  datatype ExtRecord = ExtRecord(
    moduleName: Option<string>,
    revision: Option<string>,
    name: Option<string>,
    plugin: ExtPlugin)

  /** The zero-initialised record `{0}`. */
  const Zeroed: ExtRecord :=
    ExtRecord(None, None, None, ExtPlugin(None, None, None, None, None, None, None, None, None, None, None))

  /** plugins_full_embed. */
  const PluginsFullEmbed: seq<ExtRecord> := [
    ExtRecord(
      Some("ietf-yang-full-embed"),
      Some("2023-11-05"),
      Some("full-embed"),
      ExtPlugin(
        Some("ly2 full embed v1"),
        Some(FullEmbedParse),
        Some(FullEmbedCompile),
        Some(FullEmbedPrinterInfo),
        Some(FullEmbedSprinterCTree),
        Some(FullEmbedSprinterPTree),
        None,
        None,
        None,
        Some(FullEmbedPFree),
        Some(FullEmbedCFree))),
    Zeroed
  ]

  /** The records a loader takes from a table: those before the first one with a NULL name. */
  function Records(table: seq<ExtRecord>): (r: seq<ExtRecord>)
    ensures r <= table
    ensures forall i :: 0 <= i < |r| ==> r[i].name.Some?
    ensures |r| < |table| ==> table[|r|].name.None?
    decreases |table|
  {
    if table == [] || table[0].name.None? then [] else [table[0]] + Records(table[1..])
  }

  /** The table registers exactly one extension, keyed ("ietf-yang-full-embed",
      "2023-11-05", "full-embed"), with no node, snode or validate callback, and ends in a
      zeroed record right after it. */
  lemma FullEmbedTable()
    ensures Records(PluginsFullEmbed) == [PluginsFullEmbed[0]]
    ensures var r := PluginsFullEmbed[0];
      (r.moduleName, r.revision, r.name) == (Some("ietf-yang-full-embed"), Some("2023-11-05"), Some("full-embed"))
      && r.plugin.node.None? && r.plugin.snode.None? && r.plugin.validate.None?
    ensures PluginsFullEmbed == [PluginsFullEmbed[0], Zeroed]
  {
    assert PluginsFullEmbed[1..] == [Zeroed];
    assert Records([Zeroed]) == [];
  }
}
