/** The instance-identifier type plugin: a stored value (struct lyd_value) whose resolved
    path, type and cached canonical string the plugin's callbacks read and update. */
module InstanceId {
  import opened LyCommon
  import opened Lexical
  import opened InstanceIdPath

  /** struct lysc_type_instanceid: `id` stands for the type's address, which the comparator
      tests for equality, and `requireInstance` for its require-instance flag. */
  datatype InstanceIdType = InstanceIdType(id: nat, requireInstance: bool)

  /** What lyplg_type_lypath_new hands back: a resolved path, or the error it reported. */
  datatype PathOutcome = Built(path: seq<Segment>) | Failed(rc: LyErr)

  /** The error item a failed validation creates: its code and the canonical text of the
      value it names (NULL when the value has none). */
  datatype ErrItem = ErrItem(code: LyErr, value: Option<string>)

  /** The return code of a store whose work ended with `ret`: a success still needs its
      target looked up in the data when the type requires an instance. */
  function StoreResult(requireInstance: bool, ret: LyErr): (rc: LyErr)
    ensures ret == Success ==> (rc == EIncomplete <==> requireInstance)
    ensures ret == Success && !requireInstance ==> rc == Success
    ensures ret != Success ==> rc == ret
  {
    if ret == Success && requireInstance then EIncomplete else ret
  }

  /** What the comparator answers for two values; `sameObject` is whether both arguments
      point to the same value. */
  function CompareOutcome(sameObject: bool, type1: Option<InstanceIdType>, t1: seq<Segment>,
                          type2: Option<InstanceIdType>, t2: seq<Segment>, h: Hooks): LyErr
  {
    if type1 != type2 then ENot
    else if sameObject then Success
    else if t1 == [] || t2 == [] || !PathsMatch(t1, t2, h) then ENot
    else Success
  }

  /** Two distinct values of one type holding the same non-empty path compare equal. */
  lemma CopiesCompareEqual(rt: Option<InstanceIdType>, t: seq<Segment>, h: Hooks)
    requires ReflexiveValues(h) && t != []
    ensures CompareOutcome(false, rt, t, rt, t, h) == Success
  {
    PathsMatchReflexive(t, h);
  }

  /** On well-formed paths the comparator's answer does not depend on argument order. */
  lemma CompareSymmetric(same: bool, type1: Option<InstanceIdType>, t1: seq<Segment>,
                         type2: Option<InstanceIdType>, t2: seq<Segment>, h: Hooks)
    requires WellFormed(t1) && WellFormed(t2) && SymmetricValues(h)
    ensures CompareOutcome(same, type1, t1, type2, t2, h) == CompareOutcome(same, type2, t2, type1, t1, h)
  {
    if PathsMatch(t1, t2, h) { PathsMatchSymmetric(t1, t2, h); }
    if PathsMatch(t2, t1, h) { PathsMatchSymmetric(t2, t1, h); }
  }

  /** Distinct values that compare equal print the same text in every format. */
  lemma EqualValuesPrintAlike(type1: Option<InstanceIdType>, t1: seq<Segment>,
                              type2: Option<InstanceIdType>, t2: seq<Segment>, format: Format, h: Hooks)
    requires WellFormed(t1) && WellFormed(t2) && CoherentValues(h)
    requires CompareOutcome(false, type1, t1, type2, t2, h) == Success
    ensures type1 == type2 && PathText(t1, format, h) == PathText(t2, format, h)
  {
    MatchingPathsPrintAlike(t1, t2, format, h);
  }

  /** The text of one predicate, as the switch on the segment's predicate kind writes it. */
  method PrintPredicate(kind: PredType, pred: Predicate, format: Format, h: Hooks) returns (piece: string)
    ensures piece == PredicateText(kind, pred, format, h)
  {
    piece := "";
    match kind {
      case NoPred =>
      case PositionPred =>
        piece := "[" + Decimal(pred.position as int) + "]";
      case ListPred =>
        var str := h.printValue(pred.value, format);
        var quot := SQuote;
        if SQuote in str {
          quot := DQuote;
        }
        var key := if EveryNodePrefixed(format) then h.prefix(pred.key.owner, format) + ":" + pred.key.name
                   else "" + pred.key.name;
        piece := "[" + key + "=" + ([quot] + str + [quot]) + "]";
      case LeafListPred =>
        var str := h.printValue(pred.value, format);
        var quot := SQuote;
        if SQuote in str {
          quot := DQuote;
        }
        piece := "[.=" + ([quot] + str + [quot]) + "]";
    }
  }

  /** The predicates of one segment, appended to `result` one by one. */
  method AppendPredicates(result: string, seg: Segment, format: Format, h: Hooks) returns (r: string)
    ensures r == result + PredicatesText(seg.predType, seg.predicates, format, h)
  {
    r := result;
    for v := 0 to |seg.predicates|
      invariant r == result + PredicatesPrefixText(seg.predType, seg.predicates, v, format, h)
    {
      var piece := PrintPredicate(seg.predType, seg.predicates[v], format, h);
      PredicatesStep(r, result, piece, seg.predType, seg.predicates, v, format, h);
      r := r + piece;
    }
  }

  /** One segment: its node, as "/%s:%s" with the module's prefix or as "/%s", then its
      predicates. */
  method AppendSegment(result: string, seg: Segment, prefixed: bool, format: Format, h: Hooks) returns (r: string)
    ensures r == result + SegmentText(seg, prefixed, format, h)
  {
    var mid;
    if prefixed {
      mid := result + ("/" + h.prefix(seg.node.owner, format) + ":" + seg.node.name);
    } else {
      mid := result + ("/" + seg.node.name);
    }
    r := AppendPredicates(mid, seg, format, h);
    AppendAssoc(result, NodeText(seg.node, prefixed, format, h), PredicatesText(seg.predType, seg.predicates, format, h));
  }

  /** The XML/SCHEMA rendering: every node as /prefix:name. */
  method RenderEveryPrefixed(segs: seq<Segment>, format: Format, h: Hooks) returns (result: string)
    requires EveryNodePrefixed(format)
    ensures result == PathText(segs, format, h)
  {
    result := "";
    for u := 0 to |segs|
      invariant result == PathPrefixText(segs, u, format, h)
    {
      result := AppendSegment(result, segs[u], true, format, h);
    }
  }

  /** The canonical rendering: a node is prefixed when its module differs from the last one
      written, which is every first node. */
  method RenderCanonical(segs: seq<Segment>, format: Format, h: Hooks) returns (result: string)
    requires CanonicalFamily(format)
    ensures result == PathText(segs, format, h)
  {
    result := "";
    var mod: Option<Module> := None;
    for u := 0 to |segs|
      invariant mod == if u == 0 then None else Some(segs[u - 1].node.owner)
      invariant result == PathPrefixText(segs, u, format, h)
    {
      var seg := segs[u];
      var prefixed := mod != Some(seg.node.owner);
      PrefixedOnModuleChange(segs, u, mod, format);
      if prefixed {
        mod := Some(seg.node.owner);
      }
      result := AppendSegment(result, seg, prefixed, format, h);
    }
  }

  /** struct lyd_value holding an instance-identifier. An empty `target` is the NULL path. */
  class Value {
    var realtype: Option<InstanceIdType>
    var target: seq<Segment>
    var canonical: Option<string>

    /** A zeroed value, as the storage the store callback receives. */
    constructor ()
      ensures realtype == None && target == [] && canonical == None
    {
      realtype, target, canonical := None, [], None;
    }

    /** lyplg_type_print_instanceid. `hasDynamic` and `hasValueLen` say whether the caller
        passed the `dynamic` and `value_len` pointers; `dynamic` and `valueLen` are what is
        written through them (None: nothing). */
    method Print(format: Format, h: Hooks, hasDynamic: bool, hasValueLen: bool)
      returns (result: Option<string>, dynamic: Option<bool>, valueLen: Option<nat>)
      requires target != [] && EveryNodePrefixed(format) ==> hasDynamic
      modifies this`canonical
      ensures target == [] || !(EveryNodePrefixed(format) || CanonicalFamily(format)) ==>
        result == None && dynamic == None && canonical == old(canonical)
      ensures target != [] && EveryNodePrefixed(format) ==>
        result == Some(PathText(target, format, h)) && dynamic == Some(true) && canonical == old(canonical)
      ensures target != [] && CanonicalFamily(format) ==>
        canonical == (if old(canonical).Some? then old(canonical) else Some(PathText(target, format, h)))
        && result == canonical
        && dynamic == (if hasDynamic then Some(false) else None)
      ensures valueLen == if hasValueLen && result.Some? then Some(|result.value|) else None
    {
      if target == [] {
        return None, None, None;
      }
      if EveryNodePrefixed(format) {
        var s := RenderEveryPrefixed(target, format, h);
        result, dynamic := Some(s), Some(true);
      } else if CanonicalFamily(format) {
        if canonical == None {
          var s := RenderCanonical(target, format, h);
          canonical := Some(s);
        }
        result := canonical;
        dynamic := if hasDynamic then Some(false) else None;
      } else {
        return None, None, None;
      }
      valueLen := if hasValueLen then Some(|result.value|) else None;
    }

    /** lyplg_type_store_instanceid. `hintsRc` is what lyplg_type_check_hints returned and
        `built` what lyplg_type_lypath_new produced for the input text; `h` serves the
        canonical print, made with no prefix data. */
    method Store(typ: InstanceIdType, hintsRc: LyErr, built: PathOutcome, h: Hooks) returns (rc: LyErr)
      requires built.Failed? ==> built.rc != Success
      modifies this
      ensures hintsRc != Success ==> rc == hintsRc && unchanged(this)
      ensures hintsRc == Success && built.Failed? ==> rc == built.rc && unchanged(this)
      ensures hintsRc == Success && built.Built? ==>
        target == built.path && realtype == Some(typ)
        && canonical == (if old(canonical).Some? || built.path == [] then old(canonical)
                         else Some(PathText(built.path, Canon, h)))
        && rc == (if typ.requireInstance then EIncomplete else Success)
    {
      var ret := hintsRc;
      if ret == Success {
        match built {
          case Failed(e) =>
            ret := e;
          case Built(path) =>
            target := path;
            realtype := Some(typ);
            var _, _, _ := Print(Canon, h, false, false);
        }
      }
      rc := StoreResult(typ.requireInstance, ret);
    }

    /** lyplg_type_validate_instanceid. `evalIn` stands for ly_path_eval against the data tree
        the value lives in; `h` serves the canonical print made for the error message. */
    method Validate(evalIn: seq<Segment> -> LyErr, h: Hooks) returns (rc: LyErr, err: Option<ErrItem>)
      requires realtype.Some?
      modifies this`canonical
      ensures !realtype.value.requireInstance || evalIn(target) == Success ==>
        rc == Success && err == None && canonical == old(canonical)
      ensures realtype.value.requireInstance && evalIn(target) != Success ==>
        rc == evalIn(target)
        && canonical == (if old(canonical).Some? || target == [] then old(canonical)
                         else Some(PathText(target, Canon, h)))
        && err == Some(ErrItem(rc, if target == [] then None else canonical))
    {
      if !realtype.value.requireInstance {
        return Success, None;
      }
      var ret := evalIn(target);
      if ret == Success {
        return Success, None;
      }
      var value, _, _ := Print(Canon, h, false, false);
      rc := ret;
      err := Some(ErrItem(ret, value));
    }

    /** lyplg_type_dup_instanceid, with this object as the duplicate. */
    method Dup(original: Value) returns (rc: LyErr)
      requires original.canonical.Some?
      modifies this
      ensures canonical == old(original.canonical) && realtype == old(original.realtype)
      ensures target == old(original.target)
      ensures rc == Success
    {
      canonical := original.canonical;
      realtype := original.realtype;
      target := original.target;
      rc := Success;
    }

    /** lyplg_type_free_instanceid: the path is released and the pointer cleared; the
        canonical string goes with lyplg_type_free_simple. */
    method Free()
      modifies this
      ensures target == [] && canonical == None && realtype == old(realtype)
    {
      target := [];
      canonical := None;
    }
  }

  /** lyplg_type_compare_instanceid: LY_SUCCESS when the values are equal, LY_ENOT otherwise. */
  method Compare(val1: Value, val2: Value, h: Hooks) returns (r: LyErr)
    ensures r == CompareOutcome(val1 == val2, val1.realtype, val1.target, val2.realtype, val2.target, h)
    ensures r == Success || r == ENot
  {
    if val1.realtype != val2.realtype {
      return ENot;
    }
    if val1 == val2 {
      return Success;
    } else if val1.target == [] || val2.target == [] || |val1.target| != |val2.target| {
      return ENot;
    }
    var t1, t2 := val1.target, val2.target;
    var u := 0;
    while u < |t1|
      invariant 0 <= u <= |t1|
      invariant forall k :: 0 <= k < u ==> SegmentsMatch(t1[k], t2[k], h)
    {
      var s1, s2 := t1[u], t2[u];
      if s1.node != s2.node || s1.predType != s2.predType
         || (|s1.predicates| > 0 && |s1.predicates| != |s2.predicates|) {
        assert !SegmentsMatch(t1[u], t2[u], h);
        return ENot;
      }
      if |s1.predicates| > 0 {
        var v := 0;
        while v < |s1.predicates|
          invariant 0 <= v <= |s1.predicates|
          invariant forall k :: 0 <= k < v ==>
            PredicateMatch(s1.predType, s1.node, s1.predicates[k], s2.predicates[k], h)
        {
          var pred1, pred2 := s1.predicates[v], s2.predicates[v];
          match s1.predType {
            case NoPred =>
            case PositionPred =>
              if pred1.position != pred2.position {
                assert !SegmentsMatch(t1[u], t2[u], h);
                return ENot;
              }
            case ListPred =>
              if pred1.key != pred2.key || !h.sameValue(pred1.key, pred1.value, pred2.value) {
                assert !SegmentsMatch(t1[u], t2[u], h);
                return ENot;
              }
            case LeafListPred =>
              if !h.sameValue(s1.node, pred1.value, pred2.value) {
                assert !SegmentsMatch(t1[u], t2[u], h);
                return ENot;
              }
          }
          v := v + 1;
        }
      }
      u := u + 1;
    }
    return Success;
  }
}
