# libyang instance-identifier type plugin and full-embed extension plugin, in Dafny

This project models two plugins of libyang, a YANG schema and data library.

**The instance-identifier type plugin** (`src/plugins_types/instanceid.c`) handles values of YANG's built-in
`instance-identifier` type (section 9.13 of RFC 7950). A stored value holds three things: a resolved path, a
pointer to its compiled type, and a cached canonical string. A path is a sequence of segments. Each segment
has a schema node, a predicate kind (NONE, POSITION, LIST, LEAFLIST) and its predicates.

- The printer renders the path in two styles. In XML and SCHEMA every node is `/prefix:name`. In the
  canonical family (CANON, JSON, LYB) a node gets a prefix only where the module changes (section 6.11 of
  RFC 7951). The canonical family's result is cached in the value.
- Predicates are written as `[n]`, `[key='v']` (`[prefix:key='v']` in XML/SCHEMA) or `[.='v']`. The quote
  is `"` when the value contains `'`.
- The comparator is a structural equality with early exits.
- Store and validate turn the results of path resolution and path evaluation into return codes.

**The full-embed extension plugin** (`src/plugins_exts/full_embed.c`) gives a schema node the tree-dump
flag `-u` when its type has the `LYS_USES` bit and `--` otherwise. It does this for both compiled and parsed
nodes. Its info printer and context factory always succeed, and it registers one record followed by a
zeroed terminator.

Files and modules:

- `common.dfy`, module `LyCommon`: `LY_ERR` and a nullable value (`Option`).
- `lexical.dfy`, module `Lexical`: the decimal text of a position, the choice of quote, and a reader for the
  quoted-string of section 14 of RFC 7950. The reader is used only to state what the printed text means.
- `instanceid_path.dfy`, module `InstanceIdPath`: the path datatypes. It also holds `PathText`, which
  specifies the printer, and `PathsMatch`, which specifies the comparator, with lemmas about both.
- `instanceid.dfy`, module `InstanceId`: class `Value` (struct `lyd_value`) with the printer, store,
  validate, dup and free as methods that update its fields. It also holds the comparator as a read-only
  method, and the loops that build the text.
- `full_embed.dfy`, module `FullEmbed`: the flag function, the two adapters, the info printer, the context
  factory and the record table.

Calls into code outside these two files become parameters:

- `Hooks.prefix` stands for `lyplg_type_get_prefix`.
- `Hooks.printValue` and `Hooks.sameValue` stand for the print and compare callbacks of a key's or
  leaf-list's own type.
- `hintsRc` and `PathOutcome` are the results of `lyplg_type_check_hints` and `lyplg_type_lypath_new`.
- A function from paths to return codes stands for `ly_path_eval` against the data tree.

Two C representations are mapped to Dafny values:

- libyang's sized arrays are NULL exactly when they are empty, so an empty `target` or `predicates`
  sequence is the NULL pointer.
- `struct ly_path_predicate` is a C union. It is modelled as a record of all its fields, and the segment's
  predicate kind decides which fields are read, as in the C.

Two behaviours of the full-embed plugin are worth stating plainly:

- `create_context` returns SUCCESS without creating a context or writing through its output argument.
- Nothing in these files rejects a second registration under the same key.

## Model

| member | source | states |
|---|---|---|
| `Lexical.Decimal` | src/plugins_types/instanceid.c:57-59 | a position is written as decimal digits with no leading zero |
| `Lexical.DecimalRoundTrip` | src/plugins_types/instanceid.c:112-115 | the digits written for a position read back as that position |
| `Lexical.DecimalInjective` | src/plugins_types/instanceid.c:57-59 | distinct positions are written differently |
| `Lexical.QuoteFor` | src/plugins_types/instanceid.c:65-68 | the delimiter is `'` unless the value contains `'`, then `"`; it occurs in the value exactly when the value contains both quote characters |
| `Lexical.QuotedRoundTrip` | src/plugins_types/instanceid.c:120-124 | a value placed between its delimiters reads back unchanged, with the following text intact, unless it contains both quote characters |
| `Lexical.BothQuotesCutShort` | src/plugins_types/instanceid.c:134-138 | a value containing both quote characters is not escaped: `a'b"c` reads back as `a'b` |
| `InstanceIdPath.FirstSegmentPrefixed` | src/plugins_types/instanceid.c:98-102 | the first segment is always written `/prefix:name`, because the tracked module starts NULL |
| `InstanceIdPath.FirstNodeLeads` | src/plugins_types/instanceid.c:98-106 | once at least one segment is written, the text starts with the first node as `/prefix:name`, and later appends keep it so |
| `InstanceIdPath.XmlEverySegmentPrefixed` | src/plugins_types/instanceid.c:46-50 | in XML/SCHEMA every segment is written `/prefix:name` followed by its predicates, whatever module precedes it |
| `InstanceIdPath.PrefixedOnModuleChange` | src/plugins_types/instanceid.c:98-101 | in CANON/JSON/LYB, tracking the last module written (NULL at the start) agrees with `Prefixed`: a node is prefixed exactly when that module is not its own |
| `InstanceIdPath.CanonicalPrefixOnModuleChange` | src/plugins_types/instanceid.c:99-105 | in CANON/JSON/LYB a later segment is prefixed exactly when its module differs from the previous segment's, and is otherwise `/name` |
| `InstanceIdPath.NoPredicatePrintsNothing` | src/plugins_types/instanceid.c:109-111 | the predicates of a NONE segment contribute no text |
| `InstanceIdPath.PositionPredicateReadsBack` | src/plugins_types/instanceid.c:112-115 | a position predicate is `[` digits `]` and the digits denote the position |
| `InstanceIdPath.KeyPredicateReadsBack` | src/plugins_types/instanceid.c:61-75 | a key predicate is `[prefix:key=` in XML/SCHEMA and `[key=` in the canonical family (lines 116-129), followed by a literal that reads back as the key's printed value, then `]` |
| `InstanceIdPath.LeafListPredicateReadsBack` | src/plugins_types/instanceid.c:76-89 | a leaf-list predicate is `[.=` followed by a literal that reads back as the printed value, then `]` |
| `InstanceIdPath.PathsMatchSymmetric` | src/plugins_types/instanceid.c:252-287 | on well-formed paths the segment-by-segment equality holds in both directions |
| `InstanceIdPath.PathsMatchOneSided` | src/plugins_types/instanceid.c:256-260 | the predicate count is checked only when the first value's segment has predicates, so a bare segment matches one with predicates but not the reverse |
| `InstanceIdPath.MatchingPredicatePrintsAlike` | src/plugins_types/instanceid.c:261-285 | two predicates that the comparator calls equal print the same predicate text |
| `InstanceIdPath.MatchingPredicatesPrintAlike` | src/plugins_types/instanceid.c:261-285 | predicate lists that compare equal print the same text |
| `InstanceIdPath.MatchingPathsPrintAlike` | src/plugins_types/instanceid.c:252-288 | well-formed paths that compare equal print the same text in every format |
| `InstanceId.StoreResult` | src/plugins_types/instanceid.c:203-208 | after a successful store the code is EINCOMPLETE exactly when the type requires an instance, otherwise SUCCESS; a failure code passes unchanged |
| `InstanceId.CopiesCompareEqual` | src/plugins_types/instanceid.c:242-290 | two distinct values of one type with the same non-empty path compare SUCCESS |
| `InstanceId.CompareSymmetric` | src/plugins_types/instanceid.c:238-291 | on well-formed paths the comparator's answer does not depend on argument order |
| `InstanceId.EqualValuesPrintAlike` | src/plugins_types/instanceid.c:238-291 | distinct values that compare SUCCESS have the same type and print the same text in every format |
| `InstanceId.PrintPredicate` | src/plugins_types/instanceid.c:54-89 | one predicate is rendered by its segment's kind: nothing, `[n]`, the key predicate with the chosen quote, or `[.=...]` |
| `InstanceId.AppendPredicates` | src/plugins_types/instanceid.c:106-145 | the inner loop appends exactly the segment's predicate text to the result |
| `InstanceId.AppendSegment` | src/plugins_types/instanceid.c:99-145 | one iteration of the outer loop appends exactly the segment's text: its node as `/prefix:name` when prefixed or `/name` otherwise (lines 100-104), then its predicates |
| `InstanceId.RenderEveryPrefixed` | src/plugins_types/instanceid.c:46-92 | the XML/SCHEMA loop produces the path text with every node prefixed |
| `InstanceId.RenderCanonical` | src/plugins_types/instanceid.c:96-146 | the canonical loop, tracking the last module written, produces the text in which only module changes are prefixed |
| `InstanceId.Value.Print` | src/plugins_types/instanceid.c:34-165 | NULL without a target or for an unsupported format. XML/SCHEMA returns a fresh rendering and writes `dynamic = 1`. The canonical family returns the cached string, computed and stored only when absent, and writes `dynamic = 0` only when `dynamic` is given. `value_len` is the returned length |
| `InstanceId.Value.Store` | src/plugins_types/instanceid.c:167-209 | a failed hint check or path resolution returns its code and changes nothing. Success sets target and type, fills the canonical cache, and returns EINCOMPLETE exactly when an instance is required |
| `InstanceId.Value.Validate` | src/plugins_types/instanceid.c:211-235 | SUCCESS without evaluating when no instance is required, or when evaluation finds the target. Otherwise the evaluation's code, with an error item carrying the canonical text |
| `InstanceId.Value.Dup` | src/plugins_types/instanceid.c:293-299 | the duplicate gets the original's canonical string, type and path |
| `InstanceId.Value.Free` | src/plugins_types/instanceid.c:301-307 | the path is cleared to NULL and the canonical string released |
| `InstanceId.Compare` | src/plugins_types/instanceid.c:237-291 | ENOT for different types; SUCCESS for the same value object; ENOT for a missing target or different lengths; otherwise SUCCESS exactly when every segment matches in node, kind, predicate count (when the first has predicates), position, key and key or leaf-list value |
| `FullEmbed.SprinterNode` | src/plugins_exts/full_embed.c:78-86 | the flags are `-u` exactly when the node type has the LYS_USES bit, and `--` exactly when it does not |
| `FullEmbed.FlagsDependOnlyOnUsesBit` | src/plugins_exts/full_embed.c:81-85 | node types that agree on the LYS_USES bit get the same flags |
| `FullEmbed.SprinterCNode` | src/plugins_exts/full_embed.c:88-94 | the compiled-node adapter returns SUCCESS, the node type's flags, and leaves `skip` and `add_opts` as they were |
| `FullEmbed.SprinterPNode` | src/plugins_exts/full_embed.c:96-102 | the parsed-node adapter returns SUCCESS, the node type's flags, and leaves `skip` and `add_opts` as they were |
| `FullEmbed.AdaptersAgree` | src/plugins_exts/full_embed.c:88-102 | the two adapters give identical results for the same node type |
| `FullEmbed.PrinterInfo` | src/plugins_exts/full_embed.c:49-54 | returns SUCCESS whatever the generic info printer did, passing its printed flag on |
| `FullEmbed.CreateContext` | src/plugins_exts/full_embed.c:126-133 | returns SUCCESS and leaves the caller's context untouched |
| `FullEmbed.Records` | src/plugins_exts/full_embed.c:142-161 | the records taken from a table are its longest prefix of named records, stopped by the first record without a name |
| `FullEmbed.FullEmbedTable` | src/plugins_exts/full_embed.c:142-161 | the table is exactly one record and then a zeroed record; that one record is keyed ("ietf-yang-full-embed", "2023-11-05", "full-embed"), with NULL node, snode and validate slots |

## Left out

- `full_embed_parse` and `full_embed_compile`: they only print a line and end without a `return`, so their result is undefined in C.
- `full_embed_pfree`, `full_embed_cfree`: they only pass the substatements to libyang's generic free functions, which are not part of this model.
- `full_embed_sprinter_ctree`, `full_embed_sprinter_ptree`: they return whatever `lyplg_ext_sprinter_*_add_ext_nodes` returns. That code is not part of this model. What it does with the per-node adapters is modelled by `SprinterCNode` and `SprinterPNode`.
- The `puts` diagnostics and `full_embed_printer_info`'s delegated printing are I/O. Only the flag it sets is modelled.
- `LysUses` is the value of `LYS_USES` in libyang's `tree_schema.h`. That file is not part of this model.
- `Records` follows the loader's convention of stopping at the first record with a NULL name. The loader (`plugins.c`) is not part of this model, and neither is its key lookup or duplicate-key check.
- Path parsing and resolution (`lyplg_type_lypath_new`), `lyplg_type_check_hints`, `ly_path_eval`, `ly_path_dup` and `ly_path_free` are foreign. Their results are parameters.
- Memory plumbing is not modelled: string interning (`lydict_insert`, `lydict_insert_zc`), `ly_strcat` reallocation, freeing of dynamic input or of nested printed strings (the `d` flag), and allocation failures. Strings are `seq<char>`.
- `InstanceId.Value.Dup`: always returns SUCCESS. The LY_EMEM results of `lydict_insert` and `ly_path_dup` are allocation failures and are not modelled.
- `InstanceId.Value.Validate`: the error item is reduced to its code and the canonical text. `ly_err_new` is assumed to return the code it is given, and its message formatting is not modelled.
- `InstanceId.Value.Free`: `lyplg_type_free_simple` is not part of this model. It is modelled as releasing the canonical string and clearing the pointer.
- `InstanceId.Value.Print`: `value_len` is the length of the string, which equals what `strlen` measures only when the string holds no NUL character. C strings cannot hold one, but the model does not exclude `'\0'` from node names or hook outputs; on such a string `strlen` and `strchr` would see only the part before it.
- `InstanceId.Value.Print`: the caller's prefix data is folded into the `Hooks` argument. The canonical cache is filled with whatever format the first canonical-family call uses, including JSON and LYB, as in the C.
- The `plugins_instanceid` record table and `lyplg_type_hash_simple`: they are registration data and a foreign helper.
- Well-formedness (`WellFormed`: a segment has predicates exactly when its kind is not NONE) is the shape path resolution builds. The lemmas that need it say so. `path.c` is not part of this model.
