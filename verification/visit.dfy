/**
 Mutation discovery: the visitor that walks one file's items with a stack of
 namespaces, skips test code and opted-out items together with everything
 inside them, and emits one mutation per op chosen from each remaining
 function's return type.
 */
module Visit {
  import opened Wrappers
  import opened Syntax
  import opened Mutate
  import opened Names

  // ---------------------------------------------------------------------
  // Choosing ops from a return type
  // ---------------------------------------------------------------------

  /** The function declares `-> name` with `name` a bare identifier. */
  predicate ReturnsIdent(rt: ReturnType, name: string) {
    rt.ReturnsType? && rt.ty.TypePath? && IsIdent(rt.ty.path, name)
  }

  /** The last segment of the path is `Result`, whatever its arguments;
      false for a path with no segments. */
  function PathIsResult(p: Path): (b: bool)
    ensures b <==> |p.segments| > 0 && SegmentIdents(p)[|p.segments| - 1] == "Result"
  {
    match LastSegment(p)
    case None => false
    case Some(segment) => segment.ident == "Result"
  }

  /** The path's last segment, if it has any. */
  function LastSegment(p: Path): Option<PathSegment> {
    if |p.segments| == 0 then None else Some(p.segments[|p.segments| - 1])
  }

  /** The function returns a path type ending in `Result`. */
  predicate ResultShaped(rt: ReturnType) {
    rt.ReturnsType? && rt.ty.TypePath? && PathIsResult(rt.ty.path)
  }

  /** `op` is one the source pairs with this return-type shape. Whether the
      replaced body then compiles (a `Default` impl, a user type named
      `Result`) is not part of the model. */
  predicate OpFits(op: MutationOp, rt: ReturnType) {
    match op
    case Unit => rt.DefaultReturn?
    case True => ReturnsIdent(rt, "bool")
    case False => ReturnsIdent(rt, "bool")
    case EmptyString => ReturnsIdent(rt, "String")
    case Xyzzy => ReturnsIdent(rt, "String")
    case OkDefault => ResultShaped(rt)
    case Default => rt.ReturnsType?
  }

  /** The whole-body replacements tried for a function with this return type. */
  function OpsForReturnType(rt: ReturnType): (ops: seq<MutationOp>)
    ensures 1 <= |ops| <= 2
    ensures forall i :: 0 <= i < |ops| ==> OpFits(ops[i], rt)
    ensures forall i, j :: 0 <= i < j < |ops| ==> ops[i] != ops[j]
    ensures rt.DefaultReturn? <==> ops == [Unit]
    ensures ReturnsIdent(rt, "bool") <==> ops == [True, False]
    ensures ReturnsIdent(rt, "String") <==> ops == [EmptyString, Xyzzy]
    ensures ResultShaped(rt) <==> ops == [OkDefault]
    ensures ops == [Default] <==>
      rt.ReturnsType? && !ReturnsIdent(rt, "bool") && !ReturnsIdent(rt, "String") && !ResultShaped(rt)
  {
    match rt
    case DefaultReturn => [Unit]
    case ReturnsType(ty) =>
      match ty
      case TypePath(path) =>
        if IsIdent(path, "bool") then [True, False]
        else if IsIdent(path, "String") then [EmptyString, Xyzzy]
        else if PathIsResult(path) then [OkDefault]
        else [Default]
      case OtherType => [Default]
  }

  /** `Result<(), ()>` ends in `Result` although its segment has arguments,
      so it is mutated to `Ok(Default::default())`. */
  lemma ResultWithArgumentsIsResult()
    ensures PathIsResult(Path(false, [PathSegment("Result", true)]))
    ensures OpsForReturnType(ReturnsType(TypePath(Path(false, [PathSegment("Result", true)])))) == [OkDefault]
  {
  }

  /** The namespace segment used for an `impl` block: the self type's
      identifier when it is one bare identifier, otherwise `<??>`. */
  function TypeNameString(ty: Type): (name: string)
    ensures ty.TypePath? && GetIdent(ty.path).Some? ==> name == GetIdent(ty.path).value
    ensures !(ty.TypePath? && GetIdent(ty.path).Some?) ==> name == "<??>"
    ensures AllColonFree(SegmentIdents(TypePathOrEmpty(ty))) ==> ColonFree(name)
  {
    match ty
    case TypePath(p) =>
      (match GetIdent(p)
       case Some(ident) =>
         assert SegmentIdents(p)[0] == ident;
         ident
       case None => "<??>")
    case OtherType => "<??>"
  }

  /** The path of a path type; the empty path otherwise. */
  function TypePathOrEmpty(ty: Type): Path {
    if ty.TypePath? then ty.path else Path(false, [])
  }

  // ---------------------------------------------------------------------
  // Attributes that exclude an item
  // ---------------------------------------------------------------------

  /** `#[test]`. */
  function AttrIsTest(a: Attribute): (b: bool)
    ensures b <==> a.path == Path(false, [PathSegment("test", false)])
  {
    IsIdent(a.path, "test")
  }

  /** `#[mutants::skip]`: the segment identifiers are exactly `mutants`, `skip`. */
  function AttrIsMutantsSkip(a: Attribute): (b: bool)
    ensures b <==> |a.path.segments| == 2 && a.path.segments[0].ident == "mutants" && a.path.segments[1].ident == "skip"
  {
    var ids := SegmentIdents(a.path);
    assert |ids| == 2 ==> ids == [ids[0], ids[1]];
    ids == ["mutants", "skip"]
  }

  /** An entry of a cfg list that is the bare path `test`. */
  predicate NestedIsTest(n: NestedMeta) {
    n.NestedPath? && IsIdent(n.path, "test")
  }

  /** The scan of a cfg list, stopping at the first bare `test`. */
  function ListHasTest(nested: seq<NestedMeta>): (found: bool)
    ensures found <==> exists i :: 0 <= i < |nested| && NestedIsTest(nested[i])
    decreases |nested|
  {
    if |nested| == 0 then false
    else if NestedIsTest(nested[0]) then true
    else
      var rest := ListHasTest(nested[1..]);
      assert forall i :: 1 <= i < |nested| ==> nested[i] == nested[1..][i - 1];
      rest
  }

  /** `#[cfg(...)]` whose list directly contains the bare path `test`;
      `cfg(not(test))` and `cfg(all(test, unix))` do not qualify. */
  function AttrIsCfgTest(a: Attribute): (b: bool)
    ensures b <==>
      IsIdent(a.path, "cfg") && a.meta.MetaList? &&
      exists i :: 0 <= i < |a.meta.nested| && NestedIsTest(a.meta.nested[i])
  {
    if !IsIdent(a.path, "cfg") then false
    else
      match a.meta
      case MetaList(nested) => ListHasTest(nested)
      case MetaPath => false
      case MetaNameValue => false
  }

  /** One attribute that marks its item as test code or opted out. */
  predicate ExcludingAttr(a: Attribute) {
    AttrIsCfgTest(a) || AttrIsTest(a) || AttrIsMutantsSkip(a)
  }

  /** Some attribute of the list excludes the item and everything inside it. */
  function AttrsExcluded(attrs: seq<Attribute>): (excluded: bool)
    ensures excluded <==> exists i :: 0 <= i < |attrs| && ExcludingAttr(attrs[i])
    decreases |attrs|
  {
    if |attrs| == 0 then false
    else if ExcludingAttr(attrs[0]) then true
    else
      var rest := AttrsExcluded(attrs[1..]);
      assert forall i :: 1 <= i < |attrs| ==> attrs[i] == attrs[1..][i - 1];
      rest
  }

  /** The item's own attributes exclude it. */
  predicate Excluded(item: Item) {
    AttrsExcluded(ItemAttrs(item))
  }

  // ---------------------------------------------------------------------
  // The visitor
  // ---------------------------------------------------------------------

  /** The state of a walk over one file: the mutations found so far and the
      namespaces currently entered, innermost last. */
  datatype Visitor = Visitor(sourceFile: SourceFile, mutations: seq<Mutation>, namespaceStack: seq<string>)

  /** A fresh visitor for `file`. */
  function NewVisitor(file: SourceFile): Visitor {
    Visitor(file, [], [])
  }

  /** Entering a namespace pushes its name. */
  function EnterNamespace(v: Visitor, name: string): Visitor {
    v.(namespaceStack := v.namespaceStack + [name])
  }

  /** Leaving a namespace pops its name; the precondition is the check, made
      on every exit, that the name popped is the name that was pushed. */
  function LeaveNamespace(v: Visitor, name: string): (r: Visitor)
    requires |v.namespaceStack| > 0 && v.namespaceStack[|v.namespaceStack| - 1] == name
    ensures r.namespaceStack + [name] == v.namespaceStack
    ensures r.mutations == v.mutations && r.sourceFile == v.sourceFile
  {
    v.(namespaceStack := v.namespaceStack[..|v.namespaceStack| - 1])
  }

  /** Appends one mutation per op, in op order, all for the same function. */
  function AppendMutations(v: Visitor, ops: seq<MutationOp>, name: string, returnType: string, span: Span): (r: Visitor)
    ensures r.sourceFile == v.sourceFile && r.namespaceStack == v.namespaceStack
    ensures |r.mutations| == |v.mutations| + |ops|
    ensures r.mutations[..|v.mutations|] == v.mutations
    ensures forall k :: 0 <= k < |ops| ==>
      r.mutations[|v.mutations| + k] == Mutation(v.sourceFile, ops[k], name, returnType, span)
    ensures AllFrom(v.mutations, v.sourceFile) ==> AllFrom(r.mutations, v.sourceFile)
    decreases |ops|
  {
    if |ops| == 0 then v
    else
      var m := Mutation(v.sourceFile, ops[0], name, returnType, span);
      var r := AppendMutations(v.(mutations := v.mutations + [m]), ops[1..], name, returnType, span);
      assert r.mutations[..|v.mutations| + 1] == v.mutations + [m];
      assert r.mutations[..|v.mutations|] == (v.mutations + [m])[..|v.mutations|];
      r
  }

  /** The mutations of one function: its name is the current namespace with
      the function's identifier pushed, and one mutation is emitted per op
      chosen from its return type, in op order. */
  function CollectFnMutations(v: Visitor, ident: string, output: ReturnType, outputText: string, body: Span): (r: Visitor)
    ensures r.sourceFile == v.sourceFile && r.namespaceStack == v.namespaceStack
    ensures |r.mutations| == |v.mutations| + |OpsForReturnType(output)|
    ensures r.mutations[..|v.mutations|] == v.mutations
    ensures forall k :: 0 <= k < |OpsForReturnType(output)| ==>
      r.mutations[|v.mutations| + k] ==
        Mutation(v.sourceFile, OpsForReturnType(output)[k], Join(v.namespaceStack + [ident]), outputText, body)
    ensures AllFrom(v.mutations, v.sourceFile) ==> AllFrom(r.mutations, v.sourceFile)
  {
    var inside := EnterNamespace(v, ident);
    var functionName := Join(inside.namespaceStack);
    var done := AppendMutations(inside, OpsForReturnType(output), functionName, outputText, body);
    LeaveNamespace(done, ident)
  }

  /** The mutation a function contributes for its `k`th op when visited with
      namespace `ns`: element `k` of the whole list `Discovery.FnMutations`, as
      `Discovery.FnMutationsIndexed` shows. */
  function FnMutation(file: SourceFile, ns: seq<string>, item: Item, k: nat): Mutation
    requires FnLike(item) && k < |OpsForReturnType(item.output)|
  {
    Mutation(file, OpsForReturnType(item.output)[k], Join(ns + [item.ident]), item.outputText, item.body)
  }

  /** Visits one item. The walk leaves the namespace stack as it found it and
      only appends; an excluded item changes nothing; a function's own
      mutations come first, before any from items nested in its body. */
  function VisitItem(v: Visitor, item: Item): (r: Visitor)
    ensures r.sourceFile == v.sourceFile && r.namespaceStack == v.namespaceStack
    ensures |v.mutations| <= |r.mutations| && r.mutations[..|v.mutations|] == v.mutations
    ensures Excluded(item) ==> r == v
    ensures AllFrom(v.mutations, v.sourceFile) ==> AllFrom(r.mutations, v.sourceFile)
    ensures FnLike(item) && !Excluded(item) ==>
      |v.mutations| + |OpsForReturnType(item.output)| <= |r.mutations| &&
      forall k :: 0 <= k < |OpsForReturnType(item.output)| ==>
        r.mutations[|v.mutations| + k] == FnMutation(v.sourceFile, v.namespaceStack, item, k)
    decreases item, 0
  {
    match item
    case ItemFn(attrs, ident, output, outputText, body, nested) =>
      if AttrsExcluded(attrs) then v
      else VisitFunction(v, item)
    case ImplMethod(attrs, ident, output, outputText, body, nested) =>
      if AttrsExcluded(attrs) then v
      else VisitFunction(v, item)
    case ItemImpl(attrs, selfTy, nested) =>
      if AttrsExcluded(attrs) then v
      else VisitInNamespace(v, TypeNameString(selfTy), nested)
    case ItemMod(attrs, ident, nested) =>
      if !AttrsExcluded(attrs) then VisitInNamespace(v, ident, nested)
      else v
    case OtherItem(nested) =>
      VisitItems(v, nested)
  }

  /** The steps shared by free functions and methods once they are known not
      to be excluded: collect the function's own mutations, then visit its
      body's items inside the function's namespace. */
  function VisitFunction(v: Visitor, item: Item): (r: Visitor)
    requires FnLike(item)
    ensures r.sourceFile == v.sourceFile && r.namespaceStack == v.namespaceStack
    ensures AllFrom(v.mutations, v.sourceFile) ==> AllFrom(r.mutations, v.sourceFile)
    ensures |v.mutations| + |OpsForReturnType(item.output)| <= |r.mutations|
    ensures r.mutations[..|v.mutations|] == v.mutations
    ensures forall k :: 0 <= k < |OpsForReturnType(item.output)| ==>
      r.mutations[|v.mutations| + k] == FnMutation(v.sourceFile, v.namespaceStack, item, k)
    decreases item.nested, 2
  {
    var collected := CollectFnMutations(v, item.ident, item.output, item.outputText, item.body);
    var r := VisitInNamespace(collected, item.ident, item.nested);
    PrefixKept(v.mutations, collected.mutations, r.mutations);
    assert forall k :: 0 <= k < |collected.mutations| ==> r.mutations[k] == collected.mutations[k] by {
      forall k | 0 <= k < |collected.mutations|
        ensures r.mutations[k] == collected.mutations[k]
      {
        assert r.mutations[..|collected.mutations|][k] == r.mutations[k];
      }
    }
    r
  }

  /** Visits `nested` with `name` pushed, popping it afterwards: the stack is
      restored, and the check that the popped name is `name` always holds. */
  function VisitInNamespace(v: Visitor, name: string, nested: seq<Item>): (r: Visitor)
    ensures r.sourceFile == v.sourceFile && r.namespaceStack == v.namespaceStack
    ensures |v.mutations| <= |r.mutations| && r.mutations[..|v.mutations|] == v.mutations
    ensures AllFrom(v.mutations, v.sourceFile) ==> AllFrom(r.mutations, v.sourceFile)
    decreases nested, 1
  {
    var inner := VisitItems(EnterNamespace(v, name), nested);
    LeaveNamespace(inner, name)
  }

  /** Visits items in order, threading the visitor. */
  function VisitItems(v: Visitor, items: seq<Item>): (r: Visitor)
    ensures r.sourceFile == v.sourceFile && r.namespaceStack == v.namespaceStack
    ensures |v.mutations| <= |r.mutations| && r.mutations[..|v.mutations|] == v.mutations
    ensures AllFrom(v.mutations, v.sourceFile) ==> AllFrom(r.mutations, v.sourceFile)
    decreases items, 0
  {
    if |items| == 0 then v
    else
      var first := VisitItem(v, items[0]);
      var r := VisitItems(first, items[1..]);
      PrefixKept(v.mutations, first.mutations, r.mutations);
      r
  }

  /** Every mutation in `ms` is in `file`. */
  predicate AllFrom(ms: seq<Mutation>, file: SourceFile) {
    forall i :: 0 <= i < |ms| ==> ms[i].sourceFile == file
  }

  /** The mutations discovered in a file whose top-level items are `items`:
      every one of them is in that file. */
  function VisitFile(file: SourceFile, items: seq<Item>): (found: seq<Mutation>)
    ensures forall i :: 0 <= i < |found| ==> found[i].sourceFile == file
  {
    VisitItems(NewVisitor(file), items).mutations
  }

  /** Being a prefix is transitive. */
  lemma PrefixKept<T>(a: seq<T>, b: seq<T>, c: seq<T>)
    requires |a| <= |b| && b[..|a|] == a
    requires |b| <= |c| && c[..|b|] == b
    ensures |a| <= |c| && c[..|a|] == a
  {
    assert c[..|a|] == c[..|b|][..|a|];
  }
}
