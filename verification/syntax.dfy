/**
 The part of a Rust syntax tree that mutation discovery looks at: paths,
 attributes, return types and the items that can hold functions.
 Spans and the printed form of a return type are carried as opaque values.
 */
module Syntax {
  import opened Wrappers

  /** One segment of a path; `hasArguments` is true for `Vec<T>`, `Result<(), E>` and the like. */
  datatype PathSegment = PathSegment(ident: string, hasArguments: bool)

  /** A path such as `bool`, `std::fmt::Result` or `::mutants::skip`. */
  datatype Path = Path(leadingColon: bool, segments: seq<PathSegment>)

  /** The identifier of a path that is exactly one bare identifier: no leading
      `::`, one segment, no generic arguments. */
  function GetIdent(p: Path): Option<string> {
    if !p.leadingColon && |p.segments| == 1 && !p.segments[0].hasArguments
    then Some(p.segments[0].ident)
    else None
  }

  /** The path is the bare identifier `name`. */
  predicate IsIdent(p: Path, name: string) {
    GetIdent(p) == Some(name)
  }

  /** The identifiers of a path's segments, ignoring a leading `::` and any arguments. */
  function SegmentIdents(p: Path): seq<string> {
    seq(|p.segments|, i requires 0 <= i < |p.segments| => p.segments[i].ident)
  }

  /** One entry of an attribute's argument list: a bare path such as `test`,
      or anything else (`not(test)`, `feature = "x"`, a literal). */
  datatype NestedMeta = NestedPath(path: Path) | NestedOther

  /** The arguments of an attribute: none (`#[test]`), a parenthesised list
      (`#[cfg(test)]`) or `= value`. Attributes are taken to be well formed. */
  datatype Meta = MetaPath | MetaList(nested: seq<NestedMeta>) | MetaNameValue

  datatype Attribute = Attribute(path: Path, meta: Meta)

  /** A type: a (possibly qualified) path, or any other form (reference, tuple, slice, ...). */
  datatype Type = TypePath(path: Path) | OtherType

  /** A function's declared output: nothing (`fn f()`) or `-> T`. */
  datatype ReturnType = DefaultReturn | ReturnsType(ty: Type)

  /** Where a function body lies in its file; opaque to discovery. */
  datatype Span = Span(startLine: nat, startColumn: nat, endLine: nat, endColumn: nat)

  /**
   An item of a source file. `nested` holds the items found inside it:
   for a function or method, items declared in its body; for an `impl`
   block, its members; for a module, its contents. `OtherItem` stands for
   every item whose attributes discovery does not look at (traits,
   constants, structs, ...), kept only for the items nested inside it.
   `outputText` is the printed return type.
   */
  datatype Item =
    | ItemFn(attrs: seq<Attribute>, ident: string, output: ReturnType, outputText: string, body: Span, nested: seq<Item>)
    | ImplMethod(attrs: seq<Attribute>, ident: string, output: ReturnType, outputText: string, body: Span, nested: seq<Item>)
    | ItemImpl(attrs: seq<Attribute>, selfTy: Type, nested: seq<Item>)
    | ItemMod(attrs: seq<Attribute>, ident: string, nested: seq<Item>)
    | OtherItem(nested: seq<Item>)

  /** A free function or a method: the items that get mutated. */
  predicate FnLike(item: Item) {
    item.ItemFn? || item.ImplMethod?
  }

  /** The attributes discovery consults for an item (none for `OtherItem`). */
  function ItemAttrs(item: Item): seq<Attribute> {
    if item.OtherItem? then [] else item.attrs
  }
}
