/**
 A stateless definition of what discovery finds, and the facts that tie the
 visitor to it: the visitor computes exactly this list; a mutation is in it
 exactly when some function reachable through non-excluded items emits it;
 excluded items can be dropped without changing it; every function
 contributes one or two mutations; and a mutation's name gives back the
 namespace path of its function.
 */
module Discovery {
  import opened Wrappers
  import opened Syntax
  import opened Mutate
  import opened Names
  import opened Visit

  // ---------------------------------------------------------------------
  // Reference definition
  // ---------------------------------------------------------------------

  /** The namespace segment an item pushes for the items nested inside it:
      a function's, method's or module's identifier, an `impl` block's type
      name, and nothing for other items. */
  function Segment(item: Item): seq<string> {
    match item
    case ItemFn(_, ident, _, _, _, _) => [ident]
    case ImplMethod(_, ident, _, _, _, _) => [ident]
    case ItemImpl(_, selfTy, _) => [TypeNameString(selfTy)]
    case ItemMod(_, ident, _) => [ident]
    case OtherItem(_) => []
  }

  /** One mutation per op, in op order, all for the same function. */
  function MutationsFor(file: SourceFile, ops: seq<MutationOp>, name: string, returnType: string, span: Span): seq<Mutation>
    decreases |ops|
  {
    if |ops| == 0 then []
    else [Mutation(file, ops[0], name, returnType, span)] + MutationsFor(file, ops[1..], name, returnType, span)
  }

  /** A function's own mutations when it sits in namespace `ns`: one per op
      its return type selects, named by `ns` and its identifier. */
  function FnMutations(file: SourceFile, ns: seq<string>, item: Item): seq<Mutation>
    requires FnLike(item)
  {
    MutationsFor(file, OpsForReturnType(item.output), Join(ns + [item.ident]), item.outputText, item.body)
  }

  /** An item's own mutations: a function's, or none. */
  function OwnMutations(file: SourceFile, ns: seq<string>, item: Item): seq<Mutation> {
    if FnLike(item) then FnMutations(file, ns, item) else []
  }

  /** What one item contributes: nothing when excluded; otherwise its own
      mutations followed by those of the items nested inside it. */
  function ItemMutations(file: SourceFile, ns: seq<string>, item: Item): seq<Mutation>
    decreases item
  {
    if Excluded(item) then []
    else OwnMutations(file, ns, item) + Discovered(file, ns + Segment(item), item.nested)
  }

  /** What a sequence of items contributes, in item order. */
  function Discovered(file: SourceFile, ns: seq<string>, items: seq<Item>): seq<Mutation>
    decreases items
  {
    if |items| == 0 then []
    else ItemMutations(file, ns, items[0]) + Discovered(file, ns, items[1..])
  }

  /** Concatenation is associative (stated once so that proofs about the
      recursive definitions above need not rediscover it). */
  lemma ConcatAssoc<T>(a: seq<T>, b: seq<T>, c: seq<T>)
    ensures a + b + c == a + (b + c)
  {
  }

  // ---------------------------------------------------------------------
  // The visitor computes the reference list
  // ---------------------------------------------------------------------

  /** Appending mutations op by op appends `MutationsFor` the ops. */
  lemma {:induction false} AppendMutationsRefines(v: Visitor, ops: seq<MutationOp>, name: string, returnType: string, span: Span)
    ensures AppendMutations(v, ops, name, returnType, span)
         == v.(mutations := v.mutations + MutationsFor(v.sourceFile, ops, name, returnType, span))
    decreases |ops|
  {
    if |ops| > 0 {
      var m := Mutation(v.sourceFile, ops[0], name, returnType, span);
      AppendMutationsRefines(v.(mutations := v.mutations + [m]), ops[1..], name, returnType, span);
      ConcatAssoc(v.mutations, [m], MutationsFor(v.sourceFile, ops[1..], name, returnType, span));
    }
  }

  /** Collecting a function's mutations appends exactly its own mutations. */
  lemma CollectAppendsOwn(v: Visitor, item: Item)
    requires FnLike(item)
    ensures CollectFnMutations(v, item.ident, item.output, item.outputText, item.body)
         == v.(mutations := v.mutations + FnMutations(v.sourceFile, v.namespaceStack, item))
  {
    var inside := EnterNamespace(v, item.ident);
    AppendMutationsRefines(inside, OpsForReturnType(item.output), Join(inside.namespaceStack), item.outputText, item.body);
    assert (v.namespaceStack + [item.ident])[..|v.namespaceStack|] == v.namespaceStack;
  }

  /** Visiting a function that is not excluded appends its own mutations,
      then what its nested items contribute inside its namespace. */
  lemma {:induction false} VisitFunctionRefines(v: Visitor, item: Item)
    requires FnLike(item)
    decreases item.nested, 2
    ensures VisitFunction(v, item).mutations == v.mutations
      + FnMutations(v.sourceFile, v.namespaceStack, item)
      + Discovered(v.sourceFile, v.namespaceStack + [item.ident], item.nested)
  {
    var collected := CollectFnMutations(v, item.ident, item.output, item.outputText, item.body);
    CollectAppendsOwn(v, item);
    VisitInNamespaceRefines(collected, item.ident, item.nested);
  }

  /** Visiting one item appends exactly `ItemMutations` and nothing else changes. */
  lemma {:induction false} VisitItemRefines(v: Visitor, item: Item)
    ensures VisitItem(v, item).mutations == v.mutations + ItemMutations(v.sourceFile, v.namespaceStack, item)
    decreases item, 3
  {
    if Excluded(item) {
      assert v.mutations + [] == v.mutations;
    } else if FnLike(item) {
      VisitFnItemRefines(v, item);
    } else {
      VisitContainerRefines(v, item);
    }
  }

  /** The function case of `VisitItemRefines`. */
  lemma {:induction false} VisitFnItemRefines(v: Visitor, item: Item)
    requires FnLike(item) && !Excluded(item)
    ensures VisitItem(v, item).mutations == v.mutations + ItemMutations(v.sourceFile, v.namespaceStack, item)
    decreases item.nested, 3
  {
    var file, ns := v.sourceFile, v.namespaceStack;
    var own := FnMutations(file, ns, item);
    var inner := Discovered(file, ns + [item.ident], item.nested);
    assert VisitItem(v, item).mutations == v.mutations + own + inner by {
      assert VisitItem(v, item) == VisitFunction(v, item);
      VisitFunctionRefines(v, item);
    }
    assert ItemMutations(file, ns, item) == own + inner by {
      assert Segment(item) == [item.ident];
    }
    ConcatAssoc(v.mutations, own, inner);
  }

  /** The `impl`, module and other-item cases of `VisitItemRefines`. */
  lemma {:induction false} VisitContainerRefines(v: Visitor, item: Item)
    requires !FnLike(item) && !Excluded(item)
    ensures VisitItem(v, item).mutations == v.mutations + ItemMutations(v.sourceFile, v.namespaceStack, item)
    decreases item.nested, 3
  {
    var file, ns := v.sourceFile, v.namespaceStack;
    assert ItemMutations(file, ns, item) == Discovered(file, ns + Segment(item), item.nested);
    match item
    case OtherItem(nested) =>
      VisitItemsRefines(v, nested);
      assert ns + [] == ns;
    case ItemImpl(attrs, selfTy, nested) =>
      var name := TypeNameString(selfTy);
      assert VisitItem(v, item) == VisitInNamespace(v, name, nested);
      VisitInNamespaceRefines(v, name, nested);
    case ItemMod(attrs, ident, nested) =>
      assert VisitItem(v, item) == VisitInNamespace(v, ident, nested);
      VisitInNamespaceRefines(v, ident, nested);
  }

  /** Visiting inside a namespace appends what the nested items contribute there. */
  lemma {:induction false} VisitInNamespaceRefines(v: Visitor, name: string, nested: seq<Item>)
    ensures VisitInNamespace(v, name, nested).mutations
         == v.mutations + Discovered(v.sourceFile, v.namespaceStack + [name], nested)
    decreases nested, 1
  {
    VisitItemsRefines(EnterNamespace(v, name), nested);
  }

  /** Visiting a sequence of items appends exactly `Discovered`. */
  lemma {:induction false} VisitItemsRefines(v: Visitor, items: seq<Item>)
    ensures VisitItems(v, items).mutations == v.mutations + Discovered(v.sourceFile, v.namespaceStack, items)
    decreases items, 0
  {
    if |items| == 0 {
      assert v.mutations + [] == v.mutations;
    } else {
      var file, ns := v.sourceFile, v.namespaceStack;
      var head, rest := items[0], items[1..];
      var first := VisitItem(v, head);
      assert first.mutations == v.mutations + ItemMutations(file, ns, head) by {
        VisitItemRefines(v, head);
      }
      assert VisitItems(first, rest).mutations == first.mutations + Discovered(file, ns, rest) by {
        VisitItemsRefines(first, rest);
      }
      assert VisitItems(v, items) == VisitItems(first, rest);
      assert Discovered(file, ns, items) == ItemMutations(file, ns, head) + Discovered(file, ns, rest);
      ConcatAssoc(v.mutations, ItemMutations(file, ns, head), Discovered(file, ns, rest));
    }
  }

  /** A whole file's discovery is the reference list with an empty namespace. */
  lemma VisitFileRefines(file: SourceFile, items: seq<Item>)
    ensures VisitFile(file, items) == Discovered(file, [], items)
  {
    VisitItemsRefines(NewVisitor(file), items);
  }

  // ---------------------------------------------------------------------
  // Pruning
  // ---------------------------------------------------------------------

  /** Discovery over concatenated item lists concatenates the results. */
  lemma {:induction false} DiscoveredAppend(file: SourceFile, ns: seq<string>, a: seq<Item>, b: seq<Item>)
    ensures Discovered(file, ns, a + b) == Discovered(file, ns, a) + Discovered(file, ns, b)
    decreases |a|
  {
    if |a| > 0 {
      assert (a + b)[0] == a[0] && (a + b)[1..] == a[1..] + b;
      DiscoveredCons(file, ns, a + b);
      DiscoveredCons(file, ns, a);
      DiscoveredAppend(file, ns, a[1..], b);
      ConcatAssoc(ItemMutations(file, ns, a[0]), Discovered(file, ns, a[1..]), Discovered(file, ns, b));
    } else {
      assert a + b == b;
    }
  }

  /** An item that contributes nothing can be removed from a sequence of items. */
  lemma {:induction false} DropSilentItem(file: SourceFile, ns: seq<string>, pre: seq<Item>, x: Item, post: seq<Item>)
    requires ItemMutations(file, ns, x) == []
    ensures Discovered(file, ns, pre + [x] + post) == Discovered(file, ns, pre + post)
  {
    var tail := [x] + post;
    assert Discovered(file, ns, tail) == Discovered(file, ns, post) by {
      assert tail[0] == x && tail[1..] == post;
      DiscoveredCons(file, ns, tail);
    }
    ConcatAssoc(pre, [x], post);
    DiscoveredAppend(file, ns, pre, tail);
    DiscoveredAppend(file, ns, pre, post);
  }

  /** An excluded item contributes nothing, whatever is nested inside it:
      removing it leaves the discovered list unchanged. */
  lemma ExcludedItemIrrelevant(file: SourceFile, ns: seq<string>, items: seq<Item>, i: nat)
    requires i < |items| && Excluded(items[i])
    ensures Discovered(file, ns, items) == Discovered(file, ns, items[..i] + items[i + 1..])
  {
    assert items == items[..i] + [items[i]] + items[i + 1..];
    DropSilentItem(file, ns, items[..i], items[i], items[i + 1..]);
  }

  // ---------------------------------------------------------------------
  // Which mutations are discovered, and where from
  // ---------------------------------------------------------------------

  /** A function found by following a path of indices, with the namespace
      segments pushed by the items passed on the way. */
  datatype Site = Site(namespace: seq<string>, item: Item)

  /** Follows `loc` from `items`: each index selects an item, and every item
      on the way, the last included, must not be excluded. */
  function Reach(items: seq<Item>, loc: seq<nat>): Option<Site>
    decreases |loc|
  {
    if |loc| == 0 || loc[0] >= |items| then None
    else
      var it := items[loc[0]];
      if Excluded(it) then None
      else if |loc| == 1 then Some(Site([], it))
      else
        match Reach(it.nested, loc[1..])
        case None => None
        case Some(s) => Some(Site(Segment(it) + s.namespace, s.item))
  }

  /** `m` is a mutation a function emits when it sits in namespace `ns`: an op
      chosen for its return type, its name `ns` plus its identifier joined by
      `::`, its printed return type and its body span. */
  predicate Emits(file: SourceFile, ns: seq<string>, f: Item, m: Mutation) {
    FnLike(f) && m.sourceFile == file && m.op in OpsForReturnType(f.output) &&
    m.functionName == Join(ns + [f.ident]) && m.returnType == f.outputText && m.span == f.body
  }

  /** `loc` reaches a function that emits `m` in the namespace it is reached in. */
  predicate DiscoveredAt(file: SourceFile, ns: seq<string>, items: seq<Item>, loc: seq<nat>, m: Mutation) {
    var s := Reach(items, loc);
    s.Some? && Emits(file, ns + s.value.namespace, s.value.item, m)
  }

  /** The mutations made for a list of ops are those with one of the ops and
      the given file, name, return type and span. */
  lemma {:induction false} MutationsForMembers(file: SourceFile, ops: seq<MutationOp>, name: string, returnType: string, span: Span, m: Mutation)
    ensures m in MutationsFor(file, ops, name, returnType, span) <==>
      m.sourceFile == file && m.op in ops && m.functionName == name && m.returnType == returnType && m.span == span
    decreases |ops|
  {
    if |ops| > 0 {
      MutationsForMembers(file, ops[1..], name, returnType, span, m);
      assert ops == [ops[0]] + ops[1..];
    }
  }

  /** One mutation per op. */
  lemma {:induction false} MutationsForLength(file: SourceFile, ops: seq<MutationOp>, name: string, returnType: string, span: Span)
    ensures |MutationsFor(file, ops, name, returnType, span)| == |ops|
    decreases |ops|
  {
    if |ops| > 0 {
      MutationsForLength(file, ops[1..], name, returnType, span);
    }
  }

  /** The `k`th mutation made for a list of ops is the one for its `k`th op. */
  lemma {:induction false} MutationsForAt(file: SourceFile, ops: seq<MutationOp>, name: string, returnType: string, span: Span, k: nat)
    requires k < |ops|
    ensures |MutationsFor(file, ops, name, returnType, span)| == |ops|
    ensures MutationsFor(file, ops, name, returnType, span)[k] == Mutation(file, ops[k], name, returnType, span)
    decreases |ops|
  {
    MutationsForLength(file, ops, name, returnType, span);
    if k > 0 {
      MutationsForAt(file, ops[1..], name, returnType, span, k - 1);
    }
  }

  /** The list `FnMutations` and the visitor's element-wise `FnMutation` agree:
      the `k`th of a function's own mutations is its mutation for the `k`th op. */
  lemma FnMutationsIndexed(file: SourceFile, ns: seq<string>, item: Item, k: nat)
    requires FnLike(item) && k < |OpsForReturnType(item.output)|
    ensures |FnMutations(file, ns, item)| == |OpsForReturnType(item.output)|
    ensures FnMutations(file, ns, item)[k] == FnMutation(file, ns, item, k)
  {
    MutationsForAt(file, OpsForReturnType(item.output), Join(ns + [item.ident]), item.outputText, item.body, k);
  }

  /** A function's own mutations are exactly what it emits. */
  lemma FnMutationsExactly(file: SourceFile, ns: seq<string>, f: Item, m: Mutation)
    requires FnLike(f)
    ensures m in FnMutations(file, ns, f) <==> Emits(file, ns, f, m)
  {
    MutationsForMembers(file, OpsForReturnType(f.output), Join(ns + [f.ident]), f.outputText, f.body, m);
  }

  /** Only a non-empty path reaches anything. */
  lemma ReachNonEmpty(items: seq<Item>, loc: seq<nat>)
    requires Reach(items, loc).Some?
    ensures |loc| > 0
  {
  }

  /** Moving past the first item shifts the first index down by one. */
  lemma ReachShift(items: seq<Item>, loc: seq<nat>)
    requires |items| > 0 && |loc| > 0 && loc[0] > 0
    ensures Reach(items, loc) == Reach(items[1..], [loc[0] - 1] + loc[1..])
  {
    var loc' := [loc[0] - 1] + loc[1..];
    assert |loc'| == |loc| && loc'[0] == loc[0] - 1 && loc'[1..] == loc[1..];
    if loc[0] < |items| {
      assert items[1..][loc'[0]] == items[loc[0]];
    }
  }

  /** Descending into an item prefixes the namespace with the item's segment. */
  lemma ReachDescend(items: seq<Item>, i: nat, loc: seq<nat>)
    requires i < |items| && !Excluded(items[i]) && |loc| > 0
    ensures Reach(items, [i] + loc) ==
      match Reach(items[i].nested, loc)
      case None => None
      case Some(s) => Some(Site(Segment(items[i]) + s.namespace, s.item))
  {
    assert ([i] + loc)[1..] == loc;
  }

  /** The first index alone reaches the first item, whose own mutations are what it emits. */
  lemma AtOwn(file: SourceFile, ns: seq<string>, items: seq<Item>, m: Mutation)
    requires |items| > 0 && !Excluded(items[0])
    ensures DiscoveredAt(file, ns, items, [0], m) <==> m in OwnMutations(file, ns, items[0])
  {
    assert Reach(items, [0]) == Some(Site([], items[0]));
    assert ns + [] == ns;
    if FnLike(items[0]) {
      FnMutationsExactly(file, ns, items[0], m);
    }
  }

  /** A path through the first item reaches what the rest of the path reaches
      inside it, one namespace segment deeper. */
  lemma AtDescend(file: SourceFile, ns: seq<string>, items: seq<Item>, sub: seq<nat>, m: Mutation)
    requires |items| > 0 && !Excluded(items[0]) && |sub| > 0
    ensures DiscoveredAt(file, ns, items, [0] + sub, m) <==>
            DiscoveredAt(file, ns + Segment(items[0]), items[0].nested, sub, m)
  {
    ReachDescend(items, 0, sub);
    var r := Reach(items[0].nested, sub);
    if r.Some? {
      ConcatAssoc(ns, Segment(items[0]), r.value.namespace);
    }
  }

  /** A path past the first item is a path into the rest. */
  lemma AtShift(file: SourceFile, ns: seq<string>, items: seq<Item>, loc: seq<nat>, m: Mutation)
    requires |items| > 0 && |loc| > 0 && loc[0] > 0
    ensures DiscoveredAt(file, ns, items, loc, m) <==>
            DiscoveredAt(file, ns, items[1..], [loc[0] - 1] + loc[1..], m)
  {
    ReachShift(items, loc);
  }

  /** A path into the rest, its first index raised by one, is a path past the first item. */
  lemma AtShiftForward(file: SourceFile, ns: seq<string>, items: seq<Item>, sub: seq<nat>, m: Mutation)
    requires |items| > 0 && DiscoveredAt(file, ns, items[1..], sub, m)
    ensures |sub| > 0 && DiscoveredAt(file, ns, items, [sub[0] + 1] + sub[1..], m)
  {
    ReachNonEmpty(items[1..], sub);
    var loc := [sub[0] + 1] + sub[1..];
    ShiftBack(sub);
    AtShift(file, ns, items, loc, m);
  }

  /** Raising the first index and lowering it again gives the path back. */
  lemma ShiftBack(sub: seq<nat>)
    requires |sub| > 0
    ensures var loc := [sub[0] + 1] + sub[1..]; [loc[0] - 1] + loc[1..] == sub
  {
    var loc := [sub[0] + 1] + sub[1..];
    assert loc[1..] == sub[1..];
  }

  /** The first item's mutations, then the rest's. */
  lemma DiscoveredCons(file: SourceFile, ns: seq<string>, items: seq<Item>)
    requires |items| > 0
    ensures Discovered(file, ns, items) == ItemMutations(file, ns, items[0]) + Discovered(file, ns, items[1..])
    ensures !Excluded(items[0]) ==>
      ItemMutations(file, ns, items[0]) ==
      OwnMutations(file, ns, items[0]) + Discovered(file, ns + Segment(items[0]), items[0].nested)
  {
  }

  /** Every discovered mutation is emitted by some reachable function. */
  lemma {:induction false} DiscoveredFrom(file: SourceFile, ns: seq<string>, items: seq<Item>, m: Mutation)
      returns (loc: seq<nat>)
    requires m in Discovered(file, ns, items)
    ensures DiscoveredAt(file, ns, items, loc, m)
    decreases items
  {
    var head := items[0];
    var own := OwnMutations(file, ns, head);
    var inner := Discovered(file, ns + Segment(head), head.nested);
    assert (!Excluded(head) && (m in own || m in inner)) || m in Discovered(file, ns, items[1..]) by {
      DiscoveredCons(file, ns, items);
    }
    if !Excluded(head) && m in own {
      loc := [0];
      AtOwn(file, ns, items, m);
    } else if !Excluded(head) && m in inner {
      var sub := DiscoveredFrom(file, ns + Segment(head), head.nested, m);
      ReachNonEmpty(head.nested, sub);
      loc := [0] + sub;
      AtDescend(file, ns, items, sub, m);
    } else {
      var sub := DiscoveredFrom(file, ns, items[1..], m);
      AtShiftForward(file, ns, items, sub, m);
      loc := [sub[0] + 1] + sub[1..];
    }
  }

  /** Every mutation a reachable function emits is discovered. */
  lemma {:induction false} DiscoveredAtIsDiscovered(file: SourceFile, ns: seq<string>, items: seq<Item>, loc: seq<nat>, m: Mutation)
    requires DiscoveredAt(file, ns, items, loc, m)
    ensures m in Discovered(file, ns, items)
    decreases items
  {
    DiscoveredCons(file, ns, items);
    var head := items[0];
    if loc[0] == 0 {
      if |loc| == 1 {
        AtOwn(file, ns, items, m);
      } else {
        assert [0] + loc[1..] == loc;
        AtDescend(file, ns, items, loc[1..], m);
        DiscoveredAtIsDiscovered(file, ns + Segment(head), head.nested, loc[1..], m);
      }
    } else {
      AtShift(file, ns, items, loc, m);
      DiscoveredAtIsDiscovered(file, ns, items[1..], [loc[0] - 1] + loc[1..], m);
    }
  }

  /** A mutation is discovered exactly when some path of non-excluded items
      leads to a function that emits it in the namespace of that path. */
  lemma {:induction false} DiscoveredMembers(file: SourceFile, ns: seq<string>, items: seq<Item>, m: Mutation)
    ensures m in Discovered(file, ns, items) <==> exists loc :: DiscoveredAt(file, ns, items, loc, m)
  {
    if m in Discovered(file, ns, items) {
      var loc := DiscoveredFrom(file, ns, items, m);
    }
    if exists loc :: DiscoveredAt(file, ns, items, loc, m) {
      var loc :| DiscoveredAt(file, ns, items, loc, m);
      DiscoveredAtIsDiscovered(file, ns, items, loc, m);
    }
  }

  // ---------------------------------------------------------------------
  // Counting
  // ---------------------------------------------------------------------

  /** How many functions and methods discovery reaches in `items`. */
  function FnCount(items: seq<Item>): nat
    decreases items
  {
    if |items| == 0 then 0 else ItemFnCount(items[0]) + FnCount(items[1..])
  }

  /** How many functions and methods discovery reaches in `item`, itself included. */
  function ItemFnCount(item: Item): nat
    decreases item
  {
    if Excluded(item) then 0
    else (if FnLike(item) then 1 else 0) + FnCount(item.nested)
  }

  /** Every reached function contributes at least one and at most two mutations. */
  lemma {:induction false} DiscoveredCountBounds(file: SourceFile, ns: seq<string>, items: seq<Item>)
    ensures FnCount(items) <= |Discovered(file, ns, items)| <= 2 * FnCount(items)
    decreases items
  {
    if |items| > 0 {
      var head := items[0];
      DiscoveredCons(file, ns, items);
      DiscoveredCountBounds(file, ns, items[1..]);
      if !Excluded(head) {
        DiscoveredCountBounds(file, ns + Segment(head), head.nested);
        if FnLike(head) {
          MutationsForLength(file, OpsForReturnType(head.output), Join(ns + [head.ident]), head.outputText, head.body);
        }
      }
    }
  }

  // ---------------------------------------------------------------------
  // Names
  // ---------------------------------------------------------------------

  /** Every namespace segment in the tree is free of colons. */
  predicate TreeColonFree(items: seq<Item>)
    decreases items
  {
    forall i :: 0 <= i < |items| ==> ItemColonFree(items[i])
  }

  predicate ItemColonFree(item: Item)
    decreases item
  {
    AllColonFree(Segment(item)) && TreeColonFree(item.nested)
  }

  /** The namespace a path reaches, and the function's own segment, are colon-free. */
  lemma {:induction false} ReachColonFree(items: seq<Item>, loc: seq<nat>)
    requires TreeColonFree(items) && Reach(items, loc).Some?
    ensures AllColonFree(Reach(items, loc).value.namespace)
    ensures ItemColonFree(Reach(items, loc).value.item)
    decreases |loc|
  {
    var it := items[loc[0]];
    assert ItemColonFree(it);
    if |loc| > 1 {
      ReachColonFree(it.nested, loc[1..]);
    }
  }

  /** Splitting a discovered mutation's name at `::` gives back the namespace
      the function was found in followed by its identifier. */
  lemma NameRecoversNamespace(file: SourceFile, ns: seq<string>, items: seq<Item>, loc: seq<nat>, m: Mutation)
    requires AllColonFree(ns) && TreeColonFree(items)
    requires DiscoveredAt(file, ns, items, loc, m)
    ensures Split(m.functionName) == ns + Reach(items, loc).value.namespace + [Reach(items, loc).value.item.ident]
  {
    var s := Reach(items, loc).value;
    ReachColonFree(items, loc);
    assert Segment(s.item) == [s.item.ident];
    SplitJoin(ns + s.namespace + [s.item.ident]);
  }
}
