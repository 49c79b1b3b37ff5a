/** The resolved instance-identifier path (struct ly_path) and the two specifications the
    plugin is proved against: the text the printer writes for a path in a given value format,
    and when two paths are equal for the comparator. */
module InstanceIdPath {
  import opened LyCommon
  import opened Lexical

  /** LY_VALUE_FORMAT. */
  datatype Format = Canon | Schema | SchemaResolved | Xml | Json | Lyb | StrNs

  /** Formats in which every node name carries a module prefix. */
  predicate EveryNodePrefixed(format: Format) {
    format == Xml || format == Schema
  }

  /** Formats served from the canonical string, where a prefix appears only where the module changes. */
  predicate CanonicalFamily(format: Format) {
    format == Canon || format == Json || format == Lyb
  }

  newtype u64 = x: int | 0 <= x < 0x1_0000_0000_0000_0000

  /** A schema module (struct lys_module), known by identity; its text reaches the output only through the prefix hook. */
  datatype Module = Module(id: nat)

  /** A compiled schema node (struct lysc_node); `id` tells apart nodes that share a module and name. */
  datatype SchemaNode = SchemaNode(owner: Module, name: string, id: nat)

  /** The stored value of a key or leaf-list entry (struct lyd_value); only the hooks look inside. */
  datatype TermValue = TermValue(realtype: nat, data: string)

  /** LY_PATH_PREDTYPE_*: the kind of predicate every predicate of a segment has. */
  datatype PredType = NoPred | PositionPred | ListPred | LeafListPred

  /** struct ly_path_predicate, a C union of a position and a (key, value) pair: which fields
      mean anything is decided by the segment's PredType. */
  datatype Predicate = Predicate(position: u64, key: SchemaNode, value: TermValue)

  /** One step of the path: a node, the kind of its predicates and the predicates. An empty
      `predicates` is the NULL array. */
  datatype Segment = Segment(node: SchemaNode, predType: PredType, predicates: seq<Predicate>)

  /** The calls the plugin makes into code outside it: lyplg_type_get_prefix (with the caller's
      prefix data fixed), the print callback of a key or leaf-list value's own type, and the
      compare callback of a node's type (true when it returns LY_SUCCESS). */
  datatype Hooks = Hooks(
    prefix: (Module, Format) -> string,
    printValue: (TermValue, Format) -> string,
    sameValue: (SchemaNode, TermValue, TermValue) -> bool)

  /** The shape of paths that path resolution builds: a segment has predicates exactly when
      its predicate kind is not NONE. */
  predicate WellFormed(t: seq<Segment>) {
    forall u :: 0 <= u < |t| ==> (t[u].predType == NoPred <==> |t[u].predicates| == 0)
  }

  // ---------------------------------------------------------------- printing

  /** The key part of a key-predicate: prefixed in XML/SCHEMA, bare in the canonical family. */
  function KeyName(p: Predicate, format: Format, h: Hooks): string {
    (if EveryNodePrefixed(format) then h.prefix(p.key.owner, format) + ":" else "") + p.key.name
  }

  function PredicateText(kind: PredType, p: Predicate, format: Format, h: Hooks): string {
    match kind
    case NoPred => ""
    case PositionPred => "[" + Decimal(p.position as int) + "]"
    case ListPred => "[" + KeyName(p, format, h) + "=" + Quoted(h.printValue(p.value, format)) + "]"
    case LeafListPred => "[.=" + Quoted(h.printValue(p.value, format)) + "]"
  }

  /** The text of the first n predicates of a segment. */
  function PredicatesPrefixText(kind: PredType, preds: seq<Predicate>, n: nat, format: Format, h: Hooks): string
    requires n <= |preds|
    decreases n
  {
    if n == 0 then ""
    else PredicatesPrefixText(kind, preds, n - 1, format, h) + PredicateText(kind, preds[n - 1], format, h)
  }

  function PredicatesText(kind: PredType, preds: seq<Predicate>, format: Format, h: Hooks): string {
    PredicatesPrefixText(kind, preds, |preds|, format, h)
  }

  /** A node as the printer writes it: "/prefix:name" when prefixed, "/name" otherwise. */
  function NodeText(node: SchemaNode, prefixed: bool, format: Format, h: Hooks): string {
    if prefixed then "/" + h.prefix(node.owner, format) + ":" + node.name else "/" + node.name
  }

  function SegmentText(seg: Segment, prefixed: bool, format: Format, h: Hooks): string {
    NodeText(seg.node, prefixed, format, h) + PredicatesText(seg.predType, seg.predicates, format, h)
  }

  /** Whether segment i is written with its module prefix. */
  predicate Prefixed(segs: seq<Segment>, i: nat, format: Format)
    requires i < |segs|
  {
    EveryNodePrefixed(format) || i == 0 || segs[i - 1].node.owner != segs[i].node.owner
  }

  /** In the canonical family, a segment is prefixed exactly when the module last written,
      if any, is not its own. */
  lemma PrefixedOnModuleChange(segs: seq<Segment>, u: nat, last: Option<Module>, format: Format)
    requires CanonicalFamily(format) && u < |segs|
    requires last == if u == 0 then None else Some(segs[u - 1].node.owner)
    ensures Prefixed(segs, u, format) <==> last != Some(segs[u].node.owner)
  {
  }

  /** The text the printer has written after the first n segments. */
  function PathPrefixText(segs: seq<Segment>, n: nat, format: Format, h: Hooks): string
    requires n <= |segs|
    decreases n
  {
    if n == 0 then ""
    else PathPrefixText(segs, n - 1, format, h) + SegmentText(segs[n - 1], Prefixed(segs, n - 1, format), format, h)
  }

  /** The text the printer writes for a path. */
  function PathText(segs: seq<Segment>, format: Format, h: Hooks): string {
    PathPrefixText(segs, |segs|, format, h)
  }

  /** One more predicate appended to a partial text extends it to the next prefix. */
  lemma PredicatesStep(r: string, result: string, piece: string, kind: PredType, preds: seq<Predicate>, v: nat, format: Format, h: Hooks)
    requires v < |preds|
    requires r == result + PredicatesPrefixText(kind, preds, v, format, h)
    requires piece == PredicateText(kind, preds[v], format, h)
    ensures r + piece == result + PredicatesPrefixText(kind, preds, v + 1, format, h)
  {
    AppendAssoc(result, PredicatesPrefixText(kind, preds, v, format, h), piece);
  }

  lemma AppendAssoc(a: string, b: string, c: string)
    ensures a + (b + c) == (a + b) + c
  {
  }

  lemma PrefixOfAppend(a: string, b: string, c: string)
    requires a <= b
    ensures a <= b + c
  {
    assert (b + c)[..|a|] == b[..|a|];
  }

  lemma ConcatPrefix(a: string, b: string)
    ensures a <= a + b
  {
    assert (a + b)[..|a|] == a;
  }

  /** Every prefix of the text that holds a segment starts with the first node, prefixed. */
  lemma {:induction false} FirstNodeLeads(segs: seq<Segment>, n: nat, format: Format, h: Hooks)
    requires 1 <= n <= |segs|
    ensures NodeText(segs[0].node, true, format, h) <= PathPrefixText(segs, n, format, h)
    decreases n
  {
    var head := NodeText(segs[0].node, true, format, h);
    if n == 1 {
      var first := SegmentText(segs[0], true, format, h);
      assert PathPrefixText(segs, 1, format, h) == "" + first;
      assert "" + first == first;
      ConcatPrefix(head, PredicatesText(segs[0].predType, segs[0].predicates, format, h));
    } else {
      FirstNodeLeads(segs, n - 1, format, h);
      PrefixOfAppend(head, PathPrefixText(segs, n - 1, format, h),
                     SegmentText(segs[n - 1], Prefixed(segs, n - 1, format), format, h));
    }
  }

  /** The first segment is always written as /prefix:name, in every format. */
  lemma FirstSegmentPrefixed(segs: seq<Segment>, format: Format, h: Hooks)
    requires |segs| > 0
    ensures NodeText(segs[0].node, true, format, h) <= PathText(segs, format, h)
  {
    FirstNodeLeads(segs, |segs|, format, h);
  }

  /** In XML and SCHEMA every segment is written as /prefix:name, whatever module precedes it. */
  lemma XmlEverySegmentPrefixed(segs: seq<Segment>, i: nat, format: Format, h: Hooks)
    requires EveryNodePrefixed(format) && i < |segs|
    ensures PathPrefixText(segs, i + 1, format, h)
         == PathPrefixText(segs, i, format, h) + SegmentText(segs[i], true, format, h)
  {
  }

  /** In the canonical family a later segment is written as /prefix:name exactly when its
      module differs from the previous segment's, and as /name otherwise. */
  lemma CanonicalPrefixOnModuleChange(segs: seq<Segment>, i: nat, format: Format, h: Hooks)
    requires CanonicalFamily(format) && 0 < i < |segs|
    ensures PathPrefixText(segs, i + 1, format, h)
         == PathPrefixText(segs, i, format, h)
            + SegmentText(segs[i], segs[i - 1].node.owner != segs[i].node.owner, format, h)
  {
  }

  /** Predicates of a NONE segment print as nothing. */
  lemma {:induction false} NoPredicatePrintsNothing(preds: seq<Predicate>, n: nat, format: Format, h: Hooks)
    requires n <= |preds|
    ensures PredicatesPrefixText(NoPred, preds, n, format, h) == ""
    decreases n
  {
    if n > 0 {
      NoPredicatePrintsNothing(preds, n - 1, format, h);
    }
  }

  /** A position predicate is [digits] and the digits read back as the position. */
  lemma PositionPredicateReadsBack(p: Predicate, format: Format, h: Hooks)
    ensures var t := PredicateText(PositionPred, p, format, h);
      |t| >= 3 && t[0] == '[' && t[|t| - 1] == ']' && AllDigits(t[1..|t| - 1])
      && DecimalValue(t[1..|t| - 1]) == p.position as int
  {
    var t := PredicateText(PositionPred, p, format, h);
    assert t[1..|t| - 1] == Decimal(p.position as int);
    DecimalRoundTrip(p.position as int);
  }

  /** A key-predicate is [key=...] (with the key's prefix in XML/SCHEMA), and what follows the
      '=' reads back as the key value's own text and the closing bracket, unless that text
      holds both quote characters. */
  lemma KeyPredicateReadsBack(p: Predicate, format: Format, h: Hooks)
    requires var v := h.printValue(p.value, format); !(SQuote in v && DQuote in v)
    ensures var t := PredicateText(ListPred, p, format, h);
      var n := |KeyName(p, format, h)|;
      n + 2 <= |t| && t[..n + 2] == "[" + KeyName(p, format, h) + "="
      && ReadLiteral(t[n + 2..]) == Some((h.printValue(p.value, format), "]"))
  {
    var v := h.printValue(p.value, format);
    var head := "[" + KeyName(p, format, h) + "=";
    var t := PredicateText(ListPred, p, format, h);
    assert t == head + (Quoted(v) + "]");
    assert t[..|head|] == head;
    assert t[|head|..] == Quoted(v) + "]";
    QuotedRoundTrip(v, "]");
  }

  /** A leaf-list predicate is [.=...], and what follows the '=' reads back as the value's own
      text and the closing bracket, unless that text holds both quote characters. */
  lemma LeafListPredicateReadsBack(p: Predicate, format: Format, h: Hooks)
    requires var v := h.printValue(p.value, format); !(SQuote in v && DQuote in v)
    ensures var t := PredicateText(LeafListPred, p, format, h);
      |t| >= 3 && t[..3] == "[.=" && ReadLiteral(t[3..]) == Some((h.printValue(p.value, format), "]"))
  {
    var v := h.printValue(p.value, format);
    var t := PredicateText(LeafListPred, p, format, h);
    assert t == "[.=" + (Quoted(v) + "]");
    assert t[3..] == Quoted(v) + "]";
    QuotedRoundTrip(v, "]");
  }

  // ---------------------------------------------------------------- comparing

  predicate PredicateMatch(kind: PredType, node: SchemaNode, p1: Predicate, p2: Predicate, h: Hooks) {
    match kind
    case NoPred => true
    case PositionPred => p1.position == p2.position
    case ListPred => p1.key == p2.key && h.sameValue(p1.key, p1.value, p2.value)
    case LeafListPred => h.sameValue(node, p1.value, p2.value)
  }

  /** Two segments are equal: same node, same predicate kind and, when the first has
      predicates, as many predicates on both sides and each pair equal. */
  predicate SegmentsMatch(s1: Segment, s2: Segment, h: Hooks) {
    s1.node == s2.node && s1.predType == s2.predType
    && (|s1.predicates| > 0 ==>
          |s1.predicates| == |s2.predicates|
          && forall v :: 0 <= v < |s1.predicates| ==>
               PredicateMatch(s1.predType, s1.node, s1.predicates[v], s2.predicates[v], h))
  }

  predicate PathsMatch(t1: seq<Segment>, t2: seq<Segment>, h: Hooks) {
    |t1| == |t2| && forall u :: 0 <= u < |t1| ==> SegmentsMatch(t1[u], t2[u], h)
  }

  ghost predicate ReflexiveValues(h: Hooks) {
    forall n, a :: h.sameValue(n, a, a)
  }

  ghost predicate SymmetricValues(h: Hooks) {
    forall n, a, b :: h.sameValue(n, a, b) ==> h.sameValue(n, b, a)
  }

  /** Values that their type's comparator calls equal print identically in every format. */
  ghost predicate CoherentValues(h: Hooks) {
    forall n, a, b :: h.sameValue(n, a, b) ==> forall f :: h.printValue(a, f) == h.printValue(b, f)
  }

  lemma PathsMatchReflexive(t: seq<Segment>, h: Hooks)
    requires ReflexiveValues(h)
    ensures PathsMatch(t, t, h)
  {
  }

  /** On well-formed paths the comparison does not depend on the order of its arguments. */
  lemma PathsMatchSymmetric(t1: seq<Segment>, t2: seq<Segment>, h: Hooks)
    requires WellFormed(t1) && WellFormed(t2) && SymmetricValues(h)
    requires PathsMatch(t1, t2, h)
    ensures PathsMatch(t2, t1, h)
  {
    forall u | 0 <= u < |t2| ensures SegmentsMatch(t2[u], t1[u], h) {
      assert SegmentsMatch(t1[u], t2[u], h);
      var s1, s2 := t1[u], t2[u];
      if |s2.predicates| > 0 {
        assert |s1.predicates| > 0;
        forall v | 0 <= v < |s2.predicates|
          ensures PredicateMatch(s2.predType, s2.node, s2.predicates[v], s1.predicates[v], h)
        {
          assert PredicateMatch(s1.predType, s1.node, s1.predicates[v], s2.predicates[v], h);
        }
      }
    }
  }

  /** Without well-formedness the comparison is one-sided: a segment of the first path with no
      predicates matches the same segment with predicates, but not the other way round. */
  lemma PathsMatchOneSided(n: SchemaNode, p: Predicate, h: Hooks)
    ensures PathsMatch([Segment(n, ListPred, [])], [Segment(n, ListPred, [p])], h)
    ensures !PathsMatch([Segment(n, ListPred, [p])], [Segment(n, ListPred, [])], h)
  {
    var bare, full := Segment(n, ListPred, []), Segment(n, ListPred, [p]);
    assert !SegmentsMatch(full, bare, h);
    assert [full][0] == full && [bare][0] == bare;
  }

  /** Predicates the comparator calls equal print the same text. */
  lemma MatchingPredicatePrintsAlike(kind: PredType, node: SchemaNode, p1: Predicate, p2: Predicate, format: Format, h: Hooks)
    requires CoherentValues(h) && PredicateMatch(kind, node, p1, p2, h)
    ensures PredicateText(kind, p1, format, h) == PredicateText(kind, p2, format, h)
  {
    match kind
    case NoPred =>
    case PositionPred =>
    case ListPred =>
      assert h.sameValue(p1.key, p1.value, p2.value);
      assert h.printValue(p1.value, format) == h.printValue(p2.value, format);
    case LeafListPred =>
      assert h.sameValue(node, p1.value, p2.value);
      assert h.printValue(p1.value, format) == h.printValue(p2.value, format);
  }

  lemma {:induction false} MatchingPredicatesPrintAlike(
    kind: PredType, node: SchemaNode, ps1: seq<Predicate>, ps2: seq<Predicate>, n: nat, format: Format, h: Hooks)
    requires CoherentValues(h) && n <= |ps1| && n <= |ps2|
    requires forall v :: 0 <= v < n ==> PredicateMatch(kind, node, ps1[v], ps2[v], h)
    ensures PredicatesPrefixText(kind, ps1, n, format, h) == PredicatesPrefixText(kind, ps2, n, format, h)
    decreases n
  {
    if n > 0 {
      MatchingPredicatesPrintAlike(kind, node, ps1, ps2, n - 1, format, h);
      MatchingPredicatePrintsAlike(kind, node, ps1[n - 1], ps2[n - 1], format, h);
    }
  }

  lemma {:induction false} MatchingPathPrefixesPrintAlike(
    t1: seq<Segment>, t2: seq<Segment>, n: nat, format: Format, h: Hooks)
    requires WellFormed(t1) && WellFormed(t2) && CoherentValues(h)
    requires PathsMatch(t1, t2, h) && n <= |t1|
    ensures PathPrefixText(t1, n, format, h) == PathPrefixText(t2, n, format, h)
    decreases n
  {
    if n > 0 {
      var k := n - 1;
      MatchingPathPrefixesPrintAlike(t1, t2, k, format, h);
      var s1, s2 := t1[k], t2[k];
      assert SegmentsMatch(s1, s2, h);
      assert |s1.predicates| == |s2.predicates|;
      MatchingPredicatesPrintAlike(s1.predType, s1.node, s1.predicates, s2.predicates, |s1.predicates|, format, h);
      assert k > 0 ==> SegmentsMatch(t1[k - 1], t2[k - 1], h);
      assert Prefixed(t1, k, format) == Prefixed(t2, k, format);
    }
  }

  /** Well-formed paths that the comparator calls equal print the same text in every format. */
  lemma MatchingPathsPrintAlike(t1: seq<Segment>, t2: seq<Segment>, format: Format, h: Hooks)
    requires WellFormed(t1) && WellFormed(t2) && CoherentValues(h)
    requires PathsMatch(t1, t2, h)
    ensures PathText(t1, format, h) == PathText(t2, format, h)
  {
    MatchingPathPrefixesPrintAlike(t1, t2, |t1|, format, h);
  }
}
