/** `LoadMode`: which kinds of function the loader collects, as bit flags. */
module Load {

  /** The bits of a Go `int`. */
  type LoadMode = bv64

  /** The first constant of an `iota` block, hence 0: it has no bit. */
  const LoadProvider: LoadMode := 0
  const LoadInjector: LoadMode := 1

  /** Every bit of `mode` is set in `loadMode`. */
  predicate NeedMode(loadMode: LoadMode, mode: LoadMode) {
    loadMode & mode == mode
  }

  /** Since `LoadProvider` is 0, every mode asks for providers, and asking
      for both kinds is the same as asking for injectors alone. */
  lemma LoadProviderAlwaysNeeded(loadMode: LoadMode)
    ensures NeedMode(loadMode, LoadProvider)
    ensures LoadProvider | LoadInjector == LoadInjector
    ensures !NeedMode(LoadProvider, LoadInjector)
    ensures NeedMode(LoadInjector, LoadInjector)
  {
  }
}
