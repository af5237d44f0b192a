# autowire, modelled in Dafny

autowire completes Google Wire injector templates. It loads a Go package and
finds its injectors (functions whose body is a `wire.Build(...)` call) and its
providers (functions named `New...`). Each injector's result and its
providers' parameters and results are classified as *beans*, keyed by their
type string. For every injector it then repeats a bounded loop: ask the
injector which beans are still missing, load the package that owns each
missing bean once, and add every registered provider whose result is
identical to that bean. Finally it rewrites the source file. Each package a
new provider comes from is imported under a collision-free alias, kept in a
path/alias bijection, and each new provider is appended to the build call.

This project models that engine:

- the bidirectional map;
- beans and providers;
- the requirement calculator of an injector;
- the fixpoint loop and the election policy;
- the Wire signature and template checks;
- the import-alias resolver and the rewriting of a file's imports and build calls.

Go's type checker and AST become small closed datatypes (module `Go`). Every
Go panic becomes an error value of the `Panic` datatype (module `Panics`),
returned in a `Result` or `Outcome`. Go maps that the code updates in place
are fields of Dafny classes (`BiMap`, `Injector`, `WireFile`, `DIContext`),
changed by methods with `modifies` clauses. A loop over a Go map visits its
keys by choice (`:|`) from the set of keys not yet visited, so every
property holds whatever order Go picks.

Modules, one per source file plus shared helpers:

- `Results`, `Panics`, `Strings` (pieces of Go's `strings` and `strconv`) and `Go` (types, functions, expressions, statements, declarations).
- `BiDirectionMaps`: pkg/util/bidirectionmap.go.
- `Util`: pkg/util/util.go.
- `Load`: pkg/load.go.
- `Beans`: pkg/comm/bean.go.
- `Providers`: pkg/comm/provider.go.
- `Injectors`: pkg/comm/injector.go.
- `Config`: pkg/config.go.
- `Parse`: pkg/parse.go.
- `Files`: pkg/comm/file.go.
- `Process`: pkg/process.go.

Where the repository's documentation and the code disagree, the model follows the
code:

- `doInject` gives each injector 100 rounds (pkg/process.go:49), although its warning text says 1000 (pkg/process.go:71).
- `doInject` adds every provider whose result is identical to a missing bean, not one elected provider (pkg/process.go:62-67). `ProviderElect` is not called from there.
- A panic in any injector ends the whole run (`DoInject` returns the first failure); there is no per-injector isolation.
- `NewDIContext` takes no argument and starts with all five maps empty.
- In `Refactor`, the deferred `organizeImports` runs even after the injector loop panicked. If it panics too, its panic is the one reported (`WireFile.Conclude`).

Kept as written in the code:

- The numeric suffixes of `renamed` accumulate: the k-th retry is the base followed by `1`, `2`, ..., `k` (pkg/comm/file.go:191).
- `LoadProvider` is 0 (pkg/load.go:10), so every mode "needs" it.
- The warning at pkg/process.go:70 cannot fire: `InjectOne` proves that `warned` stays false.
- `doInject` adds all matching providers.
- `Require` keys missing beans by their text (pkg/comm/injector.go:42-67), while `doInject` adds providers by `Identical` (pkg/process.go:65). Identity ignores parameter names that the text prints, so a bean can stay missing although an identical provider was added (`Injectors.IdenticalStillMissing`).
- The sort comparator of `ProviderElect` (pkg/config.go:32-42) is not a strict weak order, so the model keeps only which partition the elected provider comes from.

## Model

| member | source | states |
|---|---|---|
| BiDirectionMaps.BiMap.constructor | pkg/util/bidirectionmap.go:10-12 | a new map is empty in both directions and is a bijection |
| BiDirectionMaps.BiMap.Put | pkg/util/bidirectionmap.go:17-27 | succeeds iff neither `l` is a left key nor `r` a right key; on success both directions gain the pair, otherwise nothing changes; the bijection invariant is kept |
| BiDirectionMaps.BiMap.MustPut | pkg/util/bidirectionmap.go:32-41 | panics with the left collision first, then the right one; otherwise acts as a successful `Put`; keeps the bijection |
| BiDirectionMaps.LookupRoundTrip | pkg/util/bidirectionmap.go:43-51 | `GetByL(l)` finds `r` iff `GetByR(r)` finds `l` |
| BiDirectionMaps.Injective | pkg/util/bidirectionmap.go:17-27 | two distinct left keys never map to the same right value |
| Util.StripStars | pkg/util/util.go:14-15 | stripping the star expressions leaves an expression that is not a star |
| Util.Unwrap | pkg/util/util.go:8-19 | an identifier yields its name, a selector its selected name, a star its operand's result; any other expression panics |
| Util.UnwrapStars | pkg/util/util.go:14-15 | any number of stars around an expression do not change what `Unwrap` returns |
| Load.LoadProviderAlwaysNeeded | pkg/load.go:5-12 | every mode needs `LoadProvider`; the bitwise or of `LoadProvider` and `LoadInjector` is `LoadInjector`; `LoadProvider` alone does not need `LoadInjector` |
| Beans.Resolved | pkg/comm/bean.go:34-37 | looking through named types reaches a type that is not named |
| Beans.KindOf | pkg/comm/bean.go:34-47 | the kind is interface, pointer or struct exactly when the underlying type is, and built-in otherwise |
| Beans.KindOfNamed | pkg/comm/bean.go:36-37 | a named type has the kind of its underlying type |
| Beans.ErrorIsInterface | pkg/comm/bean.go:34-47 | the `error` type is of interface kind |
| Beans.TypesIdenticalReflexive | pkg/comm/bean.go:49-57 | structural identity is reflexive |
| Beans.TypesIdenticalSymmetric | pkg/comm/bean.go:49-57 | structural identity is symmetric |
| Beans.TypesIdenticalSameString | pkg/comm/bean.go:49-57 | structurally identical types print the same string when the type is named, basic, or a pointer to such a type; for other shapes identity ignores parameter names that the text prints |
| Beans.IdenticalIsSameString | pkg/comm/bean.go:49-57 | beans whose strings are equal are `Identical`; for a bean whose type is named, basic, or a pointer to such a type, the converse holds too |
| Beans.InterfaceParamNames | pkg/comm/bean.go:49-57 | two interface beans that differ only in a method's parameter name are `Identical` yet print different strings |
| Beans.IdenticalReflexiveSymmetric | pkg/comm/bean.go:49-57 | `Identical` is reflexive and symmetric |
| Beans.TwoLoadsIdentical | pkg/comm/bean_test.go:11-21 | the same named type from two loads is not structurally identical, but the beans are `Identical` |
| Providers.Provider.Require | pkg/comm/provider.go:17-27 | one bean per parameter, in parameter order, each the bean `fromVar` gives; panics exactly when some parameter's type cannot be classified, naming the first such type |
| Providers.Provider.Provide | pkg/comm/provider.go:29-33 | the bean of the first result; a function without results panics |
| Providers.StripPointers | pkg/comm/provider.go:77-80 | removing every pointer layer leaves a type that is not a pointer |
| Providers.Deref | pkg/comm/provider.go:77-91 | below all pointers, a named type gives its package path (or "" without one); any other type gives the current package |
| Providers.FromVar | pkg/comm/provider.go:48-75 | named, interface, pointer and struct types give a bean of that very type; any other type panics with that type |
| Providers.OwnerOfBean | pkg/comm/provider.go:48-91 | a bean's package is that of the named type under any pointers, or else the provider function's own package |
| Providers.BeansOf | pkg/comm/provider.go:17-27 | the beans of a list of types, one per type in order; fails exactly when some type is unsupported, naming the first unsupported type |
| Providers.HandleBeans | pkg/comm/provider_test.go:26-40 | `Handle(param.Foo, *param.FooImpl, Bar) error` has three beans with the kinds, packages and strings listed; its `error` result is an interface bean of package "" |
| Injectors.Injector.constructor | pkg/comm/injector.go:24-36 | `providers` starts as a separate copy of `origin`; the other fields are stored as given |
| Injectors.Injector.AddProvider | pkg/comm/injector.go:69-73 | files every provider under its `String()`; keys only grow, a key no listed provider has keeps its provider, and the last provider of a key wins |
| Injectors.Injector.Require | pkg/comm/injector.go:42-67 | panics iff the injector's own result cannot be classified, some provider cannot be classified, or no provider's result is `Identical` to the injector's result; otherwise returns exactly the texts of the providers' inputs minus the texts of their outputs, each filed under its own text and an input of some provider; changes nothing |
| Injectors.Gather | pkg/comm/injector.go:47-56 | the loop over the providers: the beans they require by text, the texts they provide, and whether one provides the injector's result; panics iff some provider cannot be classified |
| Injectors.Visit | pkg/comm/injector.go:47-56 | one provider of that loop keeps its state; panics iff this provider cannot be classified |
| Injectors.RecordInputs | pkg/comm/injector.go:48-50 | files each required bean under its text; the keys grow by exactly the new texts |
| Injectors.DropOwned | pkg/comm/injector.go:61-65 | deletes exactly the required texts that some provider owns |
| Injectors.GatheredNothing | pkg/comm/injector.go:45-46 | before the loop, nothing is required, owned or found |
| Injectors.TextsAppend | pkg/comm/injector.go:48-50 | one more bean adds exactly its text |
| Injectors.AddOneClassifiable | pkg/comm/injector.go:47-52 | one more classifiable provider keeps the visited ones classifiable |
| Injectors.AddOneNeeded | pkg/comm/injector.go:48-50 | one more provider adds exactly its inputs to what is required |
| Injectors.AddOneOwned | pkg/comm/injector.go:51-52 | one more provider adds exactly its output to what is owned |
| Injectors.AddOneProduces | pkg/comm/injector.go:53-55 | the injector's result is found after one more provider iff it was found before or this provider produces it |
| Injectors.FiledKeys | pkg/comm/injector.go:69-73 | filing a list adds exactly the keys of its values |
| Injectors.FiledKeeps | pkg/comm/injector.go:69-73 | a key no filed value has keeps its value |
| Injectors.FiledProviders | pkg/comm/injector.go:69-73 | filing providers under `String()`: keys added, untouched keys kept, last of each key wins |
| Injectors.FiledLastWins | pkg/comm/injector.go:69-73 | the last value filed under a key is the one kept |
| Injectors.ClosedMeansNoDangling | pkg/comm/injector.go:42-67 | when `Require` returns nothing, every bean a provider requires is provided by some provider |
| Injectors.IdenticalStillMissing | pkg/comm/injector.go:42-67 | a required bean stays missing, although some provider yields an `Identical` bean, when no provider's result prints the same string |
| Config.DefaultProcessConfigurer.ProviderPredicate | pkg/config.go:55-57 | holds iff the function's name starts with "New" |
| Config.DefaultPredicates | pkg/config.go:17-19 | `InjectorPredicate` always holds, `WillRewriteSource` returns the stored flag, and `ProviderPredicate` means the "New" prefix |
| Config.DefaultProcessConfigurer.ProviderElect | pkg/config.go:22-52 | an empty candidate map panics; the result is a candidate; when some candidate is in the injector's package the result is in that package; it panics otherwise only on an unclassifiable candidate, which the sort's `Require` calls hit |
| Config.Partition | pkg/config.go:25-31 | the first list holds exactly the candidates of the injector's package; the second holds only candidates of other packages, and all of them when the first list is empty |
| Config.PickFirst | pkg/config.go:32-50 | the result is a member of the list; it panics iff the list has two or more members and one cannot be classified |
| Parse.FuncOutput | pkg/parse.go:435-467 | no results and more than three results are errors; one result is plain; two need `error` or `func()` second, setting the matching flag; three must be (T, `func()`, `error`) and set both flags; each error names the offending type, and with three results a bad second type is reported before the third |
| Parse.AcceptedShapes | pkg/parse.go:435-467 | an accepted signature has one to three results, with `err` only for a final `error` and `cleanup` only for a second `func()` |
| Parse.IsWireImport | pkg/parse.go:559-566 | a wire import path ends in "github.com/google/wire" |
| Parse.UnvendoredWireImport | pkg/parse.go:559-566 | without "vendor/" in it, a path is a wire import iff it is exactly "github.com/google/wire" |
| Parse.NoVendorWithoutV | pkg/parse.go:562 | a path without the letter v has no "vendor/" in it |
| Parse.WirePathIsWireImport | pkg/parse.go:565 | "github.com/google/wire" itself is a wire import |
| Parse.NoLaterVendor | pkg/parse.go:562 | no later "vendor/" follows one whose remainder holds no "vendor/" |
| Parse.VendoredImport | pkg/parse.go:559-566 | a path "…/vendor/" + rest, with the match at the start or after a '/' and no further "vendor/" in rest, is a wire import iff rest is "github.com/google/wire" |
| Parse.VendoredWireImport | pkg/parse.go:559-566 | a vendored wire path is a wire import |
| Parse.FindInjectorBuild | pkg/parse.go:507-557 | no body, a return before any expression statement, or no Build call gives nothing; with a Build call, the last one is returned unless another expression statement or a statement of another kind clutters the body, which is an error |
| Parse.ScanMeans | pkg/parse.go:514-549 | the state of the loop after a statement list is what the list means: expression seen, early return, last Build call, cluttered |
| Parse.ScanSnoc | pkg/parse.go:514-549 | the loop state after one more statement is one more step of the loop |
| Parse.EarlyReturnExtends | pkg/parse.go:541-545 | once a return before any expression statement is seen, it stays seen |
| Parse.NoExprStmtStep | pkg/parse.go:516-518 | one more statement keeps "no expression statement yet" iff it is not an expression statement |
| Parse.EarlyReturnStep | pkg/parse.go:541-545 | the list returns early iff its prefix did, or the new statement is a return with no expression statement before it |
| Parse.LastBuildCallStep | pkg/parse.go:521-538 | the last Build call is the new statement's, if it has one, or else the prefix's |
| Parse.ClutteredStep | pkg/parse.go:516-520 | one more statement clutters the list iff it is of another kind or a second expression statement |
| Parse.PanicWrappedBuild | pkg/parse.go:525-533 | `panic(wire.Build(NewEvent, msg.NewMessage))`, the body of example/wire.go, is recognised as the Build call |
| Parse.NewObjectCache | pkg/parse.go:334-361 | panics iff there are no packages; otherwise every filed path names a reachable package of that path, and every package reachable through imports has its path filed |
| Parse.PopFiled | pkg/parse.go:352-354 | popping a package whose path is already filed keeps the walk's invariant |
| Parse.PopNew | pkg/parse.go:355-358 | filing a new package and pushing its imports keeps the walk's invariant |
| Parse.PushedReachable | pkg/parse.go:356-358 | the pushed imports are reachable |
| Parse.PushedCovered | pkg/parse.go:355-358 | after filing a package, its imports are filed or on the stack |
| Parse.WalkDone | pkg/parse.go:349-360 | an empty stack means every reachable package is filed |
| Parse.ReachStep | pkg/parse.go:356-358 | the imports of a package reachable in k steps are reachable in k+1 |
| Parse.ClosedContainsReach | pkg/parse.go:349-360 | a filed set closed under imports that holds the roots holds every reachable path |
| Parse.ProvidedType.Provider | pkg/parse.go:628-633 | returns the held provider when there is one, and panics iff there is none |
| Parse.ProvidedType.Value | pkg/parse.go:637-642 | returns the held value when there is one, and panics iff there is none |
| Parse.ProvidedType.Arg | pkg/parse.go:646-651 | returns the held argument when there is one, and panics iff there is none |
| Parse.ProvidedType.Field | pkg/parse.go:655-660 | returns the held field when there is one, and panics iff there is none |
| Parse.NilHasNoSource | pkg/parse.go:591-593 | `IsNil` holds iff all four accessors panic; the zero value is nil |
| Files.Sanitized | pkg/comm/file.go:176-184 | each byte of the segment is sanitized at its index, and the length is kept |
| Files.SanitizedIsIdentifier | pkg/comm/file.go:176-184 | a sanitized segment holds only lower-case letters, underscores and, after the first byte, digits |
| Files.SanitizeInPlace | pkg/comm/file.go:176-184 | the loop over the byte array leaves exactly the sanitized segment |
| Files.PrefixOf | pkg/comm/file.go:172-185 | the prefix is the lowered, sanitized second-to-last segment, or empty for a one-segment path |
| Files.SuffixGrows | pkg/comm/file.go:190-191 | later retries have longer suffixes, so the candidates are pairwise distinct |
| Files.CandidateStep | pkg/comm/file.go:191 | each retry appends the next number to the previous candidate |
| Files.FirstFreeCandidate | pkg/comm/file.go:186-195 | returns the first free candidate among the base and its 255 retries, or nothing iff all are taken |
| Files.Renamed | pkg/comm/file.go:158-197 | a bound path keeps its alias; an unbound path gets its name when that is free, else the first free candidate on the prefix plus name; an unbound path never gets a taken alias; panics iff every candidate is taken; the table is not changed |
| Files.CandidateSetMembers | pkg/comm/file.go:190-195 | the set of the first n candidates holds only candidates |
| Files.CandidateSetCard | pkg/comm/file.go:190-195 | the first n candidates are n distinct aliases |
| Files.TakenCandidatesCard | pkg/comm/file.go:190-195 | a table holding the first n candidates holds at least n aliases |
| Files.NoExhaustionInSmallTables | pkg/comm/file.go:196 | `renamed` can only panic when the table holds more than 255 aliases |
| Files.TakeImport | pkg/comm/file.go:151-155 | a bound path changes nothing; an unbound path is bound to a new, free alias and nothing else changes; panics iff `renamed` does; the bijection is kept |
| Files.ImportPackage | pkg/comm/file.go:151-155 | the table only gains the package's own binding, and holds it unless no alias was left |
| Files.ImportBindings | pkg/comm/file.go:138-144 | one (path, alias) pair per import spec, in order |
| Files.PutAllAppend | pkg/comm/file.go:128-147 | imports appended later do not change the table of the earlier ones |
| Files.PutAllInverse | pkg/comm/file.go:145-146 | the collected table is a bijection |
| Files.PutAllSound | pkg/comm/file.go:145-146 | every collected binding is one an import asks for |
| Files.PutAllComplete | pkg/comm/file.go:145-146 | every import is collected unless an earlier one took its path or alias |
| Files.CollectedSoundComplete | pkg/comm/file.go:125-149 | the imports' table is a bijection whose bindings are asked for by imports (path unquoted, alias explicit or last segment), and every import is kept unless an earlier one took its path or alias |
| Files.PutPairs | pkg/comm/file.go:125-149 | the loop fills two separate tables with identical contents |
| Files.WireFile.CollectImports | pkg/comm/file.go:125-149 | `origin` and `current` are distinct new tables, both equal to the imports' table |
| Files.SpecForRoundTrip | pkg/comm/file.go:106-121 | reading back the spec written for an unquoted path gives that path and alias |
| Files.SpecsFor | pkg/comm/file.go:100-121 | one spec per path, in order |
| Files.AsSpecs | pkg/comm/file.go:120 | the import specs, in order, as declaration specs |
| Files.PutAllPrefix | pkg/comm/file.go:145-146 | import lists that agree up to n give the same table up to n |
| Files.AliasFree | pkg/comm/file.go:145-146 | an alias of the bijection is free in a table that agrees with it and does not bind its path |
| Files.PutNewBindings | pkg/comm/file.go:145-146 | collecting new, distinct bindings of a bijection after agreeing ones binds exactly the old and the new paths |
| Files.AppendedBindings | pkg/comm/file.go:120-121 | the same, for bindings appended after a prefix |
| Files.ImportBindingsAppend | pkg/comm/file.go:121 | the bindings of two import lists, one after the other |
| Files.PairsOf | pkg/comm/file.go:92-96 | the (path, alias) pairs of a list of paths, in order |
| Files.SpecsForBindings | pkg/comm/file.go:106-121 | the specs written for unquoted paths read back as their pairs |
| Files.PairsAfter | pkg/comm/file.go:120-121 | where appended pairs sit in the whole list |
| Files.PutAllAppended | pkg/comm/file.go:120-121 | collecting after appending new pairs binds exactly the old and the new paths, agreeing with the bijection |
| Files.AppendedSpecsCollected | pkg/comm/file.go:100-121 | collecting the imports after the new specs are appended agrees with `current` and binds exactly the old and the new paths |
| Files.UnboundMembers | pkg/comm/file.go:100-105 | the skipped-over list keeps exactly the paths `origin` does not bind |
| Files.UnboundStep | pkg/comm/file.go:100-105 | the paths `origin` does not bind, one path at a time |
| Files.SpecsForSnoc | pkg/comm/file.go:100-121 | one more path gives one more spec |
| Files.UnboundAscending | pkg/comm/file.go:97-105 | skipping bound paths keeps the sorted order |
| Files.FindImportDecl | pkg/comm/file.go:82-91 | returns the first general declaration whose first spec is an import, or nothing when there is none; panics iff a general declaration without specs comes first |
| Files.FirstStopUnique | pkg/comm/file.go:82-91 | the scan stops at one place only |
| Files.WireFile.AppendSpec | pkg/comm/file.go:106-121 | one pass of the append loop adds the spec to the import declaration and to the file's imports |
| Files.WireFile.AppendImports | pkg/comm/file.go:100-122 | appends, in order, the spec of every path `origin` does not bind; with no import declaration it panics iff there is something to append, changing nothing |
| Files.AppendedNothing | pkg/comm/file.go:100 | the append loop starts with nothing appended |
| Files.AppendedStep | pkg/comm/file.go:120-121 | each spec goes to the end of the declaration and of the import list |
| Files.AppendedOrganized | pkg/comm/file.go:80-123 | the append loop over every unbound path, into the first import declaration, organizes the imports |
| Files.WireFile.OrganizeImports | pkg/comm/file.go:80-123 | the added paths are exactly those `current` binds beyond `origin`, in ascending order; each gets a spec that names the alias only when it differs from the last segment, appended to the first import declaration and to the file's imports; panics, changing nothing, on a general declaration without specs met first, or on something to add with no import declaration |
| Files.OrganizedCollected | pkg/comm/file.go:80-123 | collecting the organized imports gives back `current` exactly |
| Files.WireFile.Organize | pkg/comm/file.go:53-57 | after the deferred `organizeImports` the imports only grow and their table equals `current` |
| Files.IdentFor | pkg/comm/file.go:69-72 | the argument added for a provider is an identifier of its function's name, with its package's path |
| Files.ArgsOfNone | pkg/comm/file.go:63-75 | no added provider, no new argument |
| Files.ArgsOfStep | pkg/comm/file.go:73 | one more added provider appends its argument |
| Files.VisitStep | pkg/comm/file.go:63-64 | visiting a provider adds it to the visited added providers iff the build call does not name it |
| Files.IdentsOf | pkg/comm/file.go:69-72 | one argument per provider |
| Files.SoFarParsed | pkg/comm/file.go:64 | a provider the build call names changes nothing |
| Files.SoFarAdded | pkg/comm/file.go:64-74 | an added provider gets its package bound and its argument appended |
| Files.SoFarFailed | pkg/comm/file.go:67 | a failed import still grows the table by added packages only |
| Files.RefactorProvider | pkg/comm/file.go:63-75 | a provider the build call names changes nothing; another one has its package imported and, unless no alias is left, its function appended to the build call |
| Files.RefactorInjector | pkg/comm/file.go:59-76 | an injector not completed by autowire (not `auto`, or no more providers than its build call) is left alone; otherwise every added provider's package is bound and the build call gains exactly one argument per added provider; the table grows only by those packages |
| Files.RefactoredGrows | pkg/comm/file.go:59-77 | a refactored injector stays refactored as the table grows |
| Files.RefactorNext | pkg/comm/file.go:59-77 | one pass of the loop over injectors keeps every finished injector refactored |
| Files.KeyedDistinct | pkg/comm/file.go:37-41 | injectors filed under their own keys are distinct |
| Files.BoundUnquoted | pkg/comm/file.go:66-67 | a newly bound path is a provider's package, so it can be written as an import path |
| Files.WithinTransitive | pkg/comm/file.go:145-146 | agreement between tables is transitive |
| Files.RefactorAll | pkg/comm/file.go:59-77 | every injector is refactored, or the run panics on a package with no alias left; the table binds only the original paths and the added providers' packages |
| Files.WireFile.constructor | pkg/comm/file.go:29-35 | a new file holds the given declarations, imports and package, and no injectors |
| Files.WireFile.AddInjector | pkg/comm/file.go:37-41 | files every injector under its `String()`; keys grow by exactly those, and other injectors are kept |
| Files.WireFile.Rewrite | pkg/comm/file.go:51-78 | collects the imports and runs the loop over injectors against a copy of their table |
| Files.WireFile.Conclude | pkg/comm/file.go:51-78 | the deferred `organizeImports`, whose panic replaces the loop's |
| Files.WireFile.Refactor | pkg/comm/file.go:51-78 | the possible panics are an empty declaration, a missing import declaration or an exhausted alias; unless `organizeImports` panicked, the imports only grow and their table keeps the old bindings and gains only added providers' packages; on success each completed injector's build call gains one argument per added provider, whose package the new imports bind |
| Process.DIContext.constructor | pkg/process.go:20-28 | all five maps start empty and nothing is loaded |
| Process.DIContext.LoadPackage | pkg/process.go:56-60 | loading a package not loaded before records it once and files its providers; panics iff the package cannot be loaded, changing nothing |
| Process.NewFromNothing | pkg/process.go:62-68 | adding nothing adds only providers of the bean |
| Process.NewFromTrans | pkg/process.go:54-69 | successive additions of providers of the beans are additions of providers of the beans |
| Process.MatchKeysStep | pkg/process.go:62-68 | visiting one more registered provider adds its key iff it produces the bean |
| Process.NewFromFiled | pkg/process.go:65-66 | filing a provider of the bean keeps "only providers of the bean are added" |
| Process.ScanStep | pkg/process.go:62-68 | one more provider of the scan keeps its invariant |
| Process.DIContext.AddMatching | pkg/process.go:62-68 | adds exactly the registered providers whose result is `Identical` to the bean; panics iff some registered provider has no usable result; nothing else is added or removed |
| Process.DIContext.Supply | pkg/process.go:54-69 | one missing bean: its package loaded once, then all its matching providers added |
| Process.RoundStart | pkg/process.go:54 | a round starts with nothing served |
| Process.DisplacedStep | pkg/process.go:56-60 | loading one more bean's package changes registry entries of that package only |
| Process.CoveredStep | pkg/process.go:54-69 | beans already served keep their providers after the next bean's package loads |
| Process.RoundStep | pkg/process.go:54-69 | serving one more bean keeps the round's invariant |
| Process.RoundFailed | pkg/process.go:54-69 | a round ended by a panic only loaded the beans' packages and added their providers |
| Process.DIContext.Round | pkg/process.go:54-69 | after a round, every provider producing a missing bean, registered outside the packages just loaded or in the bean's own, is in the injector; only providers of the missing beans were added; only their packages were loaded, each once |
| Process.DIContext.InjectOne | pkg/process.go:49-73 | at most 100 calls of `Require`; the warning is never logged; stopping before the last round without a panic means the injector is satisfied; packages and providers only grow |
| Process.DIContext.DoInject | pkg/process.go:46-75 | every injector gets its rounds; packages and every injector's providers only grow; on success every injector that stopped before its last round is satisfied |
| Strings.Split | pkg/comm/file.go:140-141 | `strings.Split` has at least one part |
| Strings.SplitJoin | pkg/comm/file.go:172 | the parts contain no separator and join back into the string |
| Strings.Lower | pkg/comm/file.go:175 | upper-case ASCII letters map to their lower-case letter, other bytes are kept |
| Strings.ToLower | pkg/comm/file.go:175 | lowering keeps the length and lowers each byte |
| Strings.TrimLeftSuffix | pkg/comm/file.go:138 | trimming on the left leaves a suffix not starting with the character |
| Strings.TrimRightPrefix | pkg/comm/file.go:138 | trimming on the right leaves a prefix not ending with the character |
| Strings.TrimQuote | pkg/comm/file.go:115 | trimming quotes undoes quoting an unquoted path |
| Strings.Itoa | pkg/comm/file.go:191 | decimal digits, without a leading zero |
| Strings.ItoaRoundTrip | pkg/comm/file.go:191 | the digits read back as the number |
| Strings.OccursInPrefix | pkg/parse.go:562 | an occurrence that ends before the last byte is one in the prefix |
| Strings.LastIndex | pkg/parse.go:562 | the last occurrence of the substring, or -1 when there is none |
| Strings.LastIndexIs | pkg/parse.go:562 | an occurrence with none after it is the last index |
| Strings.LessIrreflexive | pkg/comm/file.go:97-99 | `cmp.Compare` order on strings is irreflexive |
| Strings.LessTransitive | pkg/comm/file.go:97-99 | and transitive |
| Strings.LessTotal | pkg/comm/file.go:97-99 | and total on distinct strings |
| Strings.SortedKeys | pkg/comm/file.go:92-99 | sorting the paths gives each exactly once, strictly ascending |

## Left out

- Loading and saving packages (`loadPackage`, `decorator.Load`, `packages.Load`, `Save`) is I/O. A package load is a `Loader` from path to the providers the package declares, or nothing when it cannot be loaded. `Confined` assumes a package declares objects of its own path only.
- `DIContext.Process` and `DIContext.refactor` (pkg/process.go:30-43, 77-86) sequence the steps above around I/O and printing; they are not modelled.
- `loadProviderAndInjector` and the rest of pkg/proc.go walk the AST and parse build constraints. The model assumes their result: the providers a package contributes, as the `Loader` gives them.
- `objects` and `files` of `DIContext` are stored but not used by `doInject`; they are modelled as fields only.
- Go's type checker is a small datatype. `types.Identical` is structural identity on it, with named types compared by package, name and load. `types.TypeString` is the printed text, kept apart from an identity key that interface, struct, function and other unnamed types carry; the model does not compute that key from the type's parts (parameter names dropped, methods sorted), it takes it as given. `types.Func.String()` is the package path and name; the signature is omitted.
- Go's map iteration order is modelled as an arbitrary choice. Results whose order depends on it (the order of appended build arguments, the order of rounds and injectors) are stated as sets.
- Config.DefaultProcessConfigurer.ProviderElect: the `slices.SortFunc` order is not modelled, because its comparator is not a strict weak order; the result is any member of the preferred partition.
- Process.DIContext.InjectOne: when the 100th call of `Require` comes back empty, the injector is satisfied too, but the contract says nothing about the case of 100 rounds, which also covers running out of rounds.
- Process.DIContext.DoInject: says nothing about an injector that used all 100 rounds, for the same reason.
- Logging (`slog`, `logs`, `fmt.Println`) is left out; its only effect is output.
- `varDecl`, `structArgType`, `qualifiedIdentObject`, `bindShouldUsePointer`, `checkField`, `description`, `trace` and `load` in pkg/parse.go are type-checker plumbing. `qualifiedIdentObject` is a `resolve` parameter of `FindInjectorBuild`.
- `ProvidedType.Type` and the `Is...` predicates are modelled as members without contracts; the `Provider`, `Value`, `Arg` and `Field` accessors return a reference number in place of the Go pointer.
- `newObjectCache` keeps only its `packages` map; the file set, object map and type hasher are not modelled.
- `strings.ToLower` lowers ASCII letters only. Import paths are treated as ASCII, so each character is one byte; Go sanitizes the bytes of the UTF-8 text, which gives one `_` per byte of a non-ASCII letter, where the model gives one per character. `strconv.Quote` wraps the path in quotes without escaping; import paths contain no characters that need escaping.
- Go integers are unbounded here; no counter of the core comes near overflow.
