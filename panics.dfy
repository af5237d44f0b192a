/** Every panic the core can raise, as a value. */
module Panics {
  import Go

  datatype Panic =
    /** `fromVar` met a parameter or result type it cannot classify. */
    | UnsupportedType(t: Go.Type)
    /** `Provide` read the first result of a function without results. */
    | NoResults
    /** `Injector.Require`: no provider produces the injector's result. */
    | MissingProvider(bean: string)
    /** `loadPackage` could not load the package at this path. */
    | PackageNotFound(path: string)
    /** `renamed` tried every suffix for this path. */
    | AliasExhausted(path: string)
    /** `organizeImports` indexed the first spec of an empty declaration. */
    | EmptyGenDecl
    /** `organizeImports` appended to a missing import declaration. */
    | NoImportDecl
    /** `ProviderElect` was given no candidate. */
    | NoProviderGiven
    /** `newObjectCache` was given no package. */
    | NoPackages
    /** `util.Unwrap` met an expression that is not an identifier,
        selector or star expression. */
    | NotAnIdent(e: Go.Expr)
    /** A `ProvidedType` accessor was asked for a source it does not hold. */
    | WrongSource(accessor: string)
}
