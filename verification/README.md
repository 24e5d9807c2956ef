# cargo-mutants discovery and dispatch, modelled in Dafny

cargo-mutants finds Rust code that can be changed without any test failing.
It does this by mutating function bodies. This project models three parts
of it:

- **Mutation discovery.** `DiscoveryVisitor` walks the items of a source
  file, keeping a stack of namespaces. It skips every free function,
  method of an `impl` block, `impl` block or module, together with
  everything inside it, that carries `#[test]`, `#[cfg(test)]` or
  `#[mutants::skip]`. For every other free function or method of an
  `impl` block, it emits one whole-body replacement per op chosen from the
  return type:
  - `()` for no return type;
  - `true` and `false` for `bool`;
  - `""` and `"xyzzy"` for `String`;
  - `Ok(Default::default())` for a path ending in `Result`;
  - `Default::default()` for anything else.
- **The entry point.** This is the `cargo mutants` subcommand gate, then
  either listing the mutations as text or JSON, or running the experiment.
- **The exit codes.** Each is a distinct process status.

Files:

- `wrappers.dfy`: `Option` and `Result`.
- `syntax.dfy`: the part of the syntax tree discovery reads.
  - Paths with a leading-colon flag and segments that may carry arguments.
  - Attribute metas.
  - Types and return types.
  - Items: free function, method, `impl` block, module, and any other item
    whose nested items are still walked.
- `mutate.dfy`: the ops and the `Mutation` record.
- `names.dfy`: how `join("::")` builds function names, and how splitting
  at `::` gives the segments back.
- `visit.dfy`: the visitor, written as a pure function that threads its
  state. It also holds `ops_for_return_type`, `type_name_string`,
  `path_is_result` and the attribute tests.
- `discovery.dfy`: a stateless reference definition of what discovery
  finds, and the lemmas tying the visitor to it. These cover membership,
  pruning, counts and names.
- `exit_codes.dfy`: the five exit codes.
- `cli.dfy`: `main`, over an `Environment` that supplies what `main` gets
  from outside.

## Model

| member | source | states |
|---|---|---|
| Visit.OpsForReturnType | src/visit.rs:113-139 | Returns one or two distinct ops, each the one the source pairs with that return-type shape. The list is `[Unit]` exactly when there is no return type, `[True, False]` exactly for bare `bool`, `[EmptyString, Xyzzy]` exactly for bare `String`, `[OkDefault]` exactly for a path ending in `Result`, and `[Default]` in every other case. |
| Visit.PathIsResult | src/visit.rs:155-160 | A path counts as a `Result` exactly when it has a last segment and that segment's identifier is `Result`, whatever its arguments or a leading `::`. An empty path is not a `Result`. |
| Visit.ResultWithArgumentsIsResult | src/visit.rs:204-208 | `Result<(), ()>` counts as a `Result` path even though its segment has arguments, so it gets `[OkDefault]`. |
| Visit.TypeNameString | src/visit.rs:141-153 | An `impl` block's namespace segment is its self type's identifier when that type is one bare identifier, and `<??>` otherwise. The segment contains no colon when the path's identifiers contain none. |
| Visit.ListHasTest | src/visit.rs:177-183 | Scanning a cfg list finds `test` exactly when some entry of the list is the bare path `test`. |
| Visit.AttrIsCfgTest | src/visit.rs:169-186 | An attribute is `#[cfg(test)]` exactly when its path is the bare identifier `cfg`, it has a list, and some entry of that list is directly the bare path `test`. |
| Visit.AttrIsTest | src/visit.rs:189-191 | An attribute is `#[test]` exactly when its path is the single segment `test`, with no arguments and no leading `::`. |
| Visit.AttrIsMutantsSkip | src/visit.rs:194-200 | An attribute is `#[mutants::skip]` exactly when its path has two segments, `mutants` then `skip`. Arguments on the segments and a leading `::` are ignored. |
| Visit.AttrsExcluded | src/visit.rs:162-167 | An item is excluded exactly when one of its attributes is cfg-test, `#[test]`, or has the segment identifiers `mutants`, `skip`. |
| Visit.LeaveNamespace | src/visit.rs:60-68 | Popping requires the top of the stack to be the name that was pushed, as the `assert_eq!` demands. It restores the stack to what it was before the push and leaves the mutations alone. |
| Visit.AppendMutations | src/visit.rs:45-53 | Appends exactly one mutation per op, in op order, after the existing ones. Each carries the file, name, return text and span given. |
| Visit.CollectFnMutations | src/visit.rs:36-55 | A function's mutations carry the name `namespace stack ++ [ident]` joined with `::`. There is one per op of its return type, in op order, appended after the earlier ones. The namespace stack comes back unchanged. |
| Visit.VisitItem | src/visit.rs:71-111 | Visiting an item only appends and leaves the namespace stack as it was. An excluded item changes nothing. For a non-excluded function or method, its own mutations come immediately after the earlier ones, before anything nested in its body. |
| Visit.VisitFunction | src/visit.rs:72-81 | A function is visited by collecting its own mutations first, then walking its body inside its namespace. Its mutations sit immediately after the earlier ones. |
| Visit.VisitInNamespace | src/visit.rs:60-110 | `in_namespace` (lines 60-68) around syn's walk of a function body's, `impl` block's or module's items (lines 78-80, 90, 99-101, 104-110): walking them inside the pushed namespace restores the stack and only appends mutations. |
| Visit.VisitItems | src/visit.rs:71-111 | syn's default walk over a list of items, dispatching each to the overrides of lines 71-111. Walking the list keeps the namespace stack and the file, keeps the earlier mutations as a prefix, and adds only mutations in the visitor's file. |
| Visit.VisitFile | src/visit.rs:28-53 | Discovery starts from a fresh visitor for the file. Every mutation it finds names that file, because each one is built from the visitor's source file. |
| Discovery.VisitFileRefines | src/visit.rs:27-111 | The visitor's output for a file equals the stateless reference `Discovered`. That reference is each non-excluded item's own mutations, followed by those of its nested items one namespace segment deeper, in item order. |
| Discovery.VisitItemRefines | src/visit.rs:71-111 | Visiting one item appends exactly that item's reference contribution. |
| Discovery.CollectAppendsOwn | src/visit.rs:36-55 | Collecting a function's mutations appends exactly its reference mutations. |
| Discovery.FnMutationsIndexed | src/visit.rs:45-53 | A function's own mutations number one per op, and the `k`th is the mutation for its `k`th op, as the visitor appends it. |
| Discovery.MutationsForMembers | src/visit.rs:45-53 | A mutation is among those made for a function exactly when it has one of the function's ops and the function's file, name, return text and span. |
| Discovery.DiscoveredMembers | src/visit.rs:71-111 | A mutation is discovered exactly when some path of non-excluded items leads to a function that emits it, under the namespace that path pushes. |
| Discovery.ExcludedItemIrrelevant | src/visit.rs:74-76 | Removing an excluded item, along with everything nested inside it, leaves the discovered list unchanged. |
| Discovery.DiscoveredCountBounds | src/visit.rs:42-53 | Every reachable function contributes at least one and at most two mutations. So the list's length lies between the number of such functions and twice that number. |
| Discovery.NameRecoversNamespace | src/visit.rs:42-43 | Splitting a discovered mutation's name at `::` gives back the namespace it was found in, followed by the function's identifier. This holds whenever the segments are colon-free. |
| Names.JoinEnds | src/visit.rs:43 | The name joined from no segments is empty. Otherwise it starts with the first segment and ends with the last. |
| Names.SplitJoin | src/visit.rs:43 | Joining colon-free segments with `::` and splitting the result again returns the segments. |
| Names.JoinInjective | src/visit.rs:43 | Two non-empty namespace paths of colon-free segments that join to the same name are the same path. So functions at different namespace paths get different names. |
| ExitCodes.Code | src/exit_code.rs:13-27 | Each exit case has the source's constant: SUCCESS 0, USAGE 1, FOUND_PROBLEMS 2, TIMEOUT 3, CLEAN_TESTS_FAILED 4, and no other case has that value. |
| ExitCodes.FromCode | src/exit_code.rs:12-27 | An integer decodes to an exit case only if that case's code is that integer. The integers that decode to nothing are the code of no case. |
| ExitCodes.CodeRoundTrip | src/exit_code.rs:5-6 | Decoding a case's code gives the case back. So the five codes are pairwise distinct, and automation can tell the cases apart. |
| ExitCodes.CodesDistinct | src/exit_code.rs:13-27 | Two exit cases with the same code are the same case. |
| Cli.Status | src/main.rs:59-93 | A process that returns `Ok` from `main` ends with status 0. One that returns an error ends with status 1. An explicit exit ends with the status that decodes to its case. |
| Cli.ConsoleFor | src/main.rs:71-74 | The console shows all logs exactly with `--all-logs` and shows times exactly without `--no-times`. |
| Cli.OptionsFor | src/main.rs:75-76 | The experiment is check-only exactly with `--check`. |
| Cli.Main | src/main.rs:59-93 | Without the `mutants` subcommand, whether the argument is missing or is something else such as `--list`, nothing goes to stdout and the exit is USAGE; stderr gets the usage hint or the unrecognised name. Anything on stdout needs the gate passed. When argument parsing ends the process, help goes to stdout with exit 0 and an error goes to stderr with exit 1. A text listing needs `--list` without `--json` and passes `--diff` on. A JSON listing needs `--list --json` without `--diff`. With the flags parsed and the tree opened, no `--list` always runs the experiment and its report goes to stdout, even when it then fails. It gets `check_only` = `--check`, `show_times` = not `--no-times` and `show_all_logs` = `--all-logs`. The exit is its code, or `main` returns its error. A returned error is reported and ends with status 1. A tree that does not open, or discovery failing under `--list`, is returned as that error with nothing on stdout. stderr carries "--list --diff --json is not (yet) supported" exactly for `--list --json --diff` (with the tree opened and discovery done), and is empty for the listings, help and a successful experiment. |
| Cli.Decide | src/main.rs:60-90 | The action chosen from the subcommand and the `--list`, `--json` and `--diff` flags. It is a usage error exactly when the subcommand is not `mutants` or all three flags are set. It is a JSON listing exactly with `--list --json` and no `--diff`. It is a text listing exactly with `--list` and no `--json`, keeping `--diff`. It runs the experiment exactly without `--list`. |
| Cli.MainFollowsDecision | src/main.rs:77-90 | When the flags parse, the tree opens, and discovery (with `--list`) or the experiment (without) succeeds, `main` prints exactly the listing `Decide` selects, with nothing on stderr, and ends with status 0. Otherwise it prints nothing and exits with USAGE, past the gate with the `--list --diff --json` message on stderr, or it reports the experiment with nothing on stderr and exits with the experiment's code. |

## Left out

- Parsing Rust source into a syntax tree is outside the model. The tree
  is an input. Spans and the printed form of a return type
  (`to_token_stream`) are opaque values carried into each mutation.
- The panic when an attribute's meta does not parse (`parse_meta().unwrap()`)
  is left out. Attributes are taken to be well formed.
- The default syn walk into item kinds the visitor does not override is
  modelled as `OtherItem`. Its nested items are visited, with no namespace
  pushed and no exclusion check, as syn's default does. Items nested inside
  types, expressions or signatures are not represented separately. They
  are modelled as the nested items of the enclosing item.
- Methods with default bodies inside a `trait` go through syn's default
  walk, as the visitor overrides only methods of `impl` blocks. Their
  attributes are not checked and their bodies are not mutated. Only the
  items nested inside them are visited. In the model a trait is an
  `OtherItem`.
- Function names need not be unique. `type_name_string` sees only an
  `impl` block's self type. So two `impl` blocks for the same type, such as
  `impl Display for Foo` and `impl Debug for Foo`, each give a method named
  `Foo::fmt`. And every method of an `impl` for a generic or non-path type
  is named under `<??>`. `Names.JoinInjective` only says that different
  namespace paths give different names.
- Discovery never produces comparison-operator or arithmetic-operator
  mutations, because the code has none. A return type the code cannot
  recognise gets `Default::default()`; discovery never skips it.
- `Mutation::new`, the `SourceFile` type and the replacement text of each
  op live in `mutate.rs` and `source.rs`, which are not part of this model.
  A mutation is the record of what discovery passes to `Mutation::new`.
- Argument parsing by argh is represented only by its result in
  `Environment.parsed`: the flags, or whether argh ended the process after
  printing help (stdout, status 0) or an error (stderr, status 1). The
  text it prints is not modelled.
- `SourceTree::new`, `source_tree.mutations()` and `lab::experiment` (with
  the outcome's `exit_code()`) are parameters of `Environment`, not
  modelled.
- Console output, `list_mutations` formatting, and JSON serialisation are
  recorded only as what is written to stdout, not as its text.
  - A failure while writing the JSON is not modelled.
  - Nor is the text printed by a returned error.
- Exit codes are `i32` in the source. The model uses unbounded integers,
  and every code is between 0 and 4, so no width issue arises. The
  experiment's exit code is taken to be one of the five cases.
- The CLI tests of `tests/cli.rs` (subprocess runs, snapshots, temporary
  trees) are not modelled. Their exit-code expectations for the gate and
  for `--list --json --diff` are stated by `Cli.Main` and
  `Cli.MainFollowsDecision`.
