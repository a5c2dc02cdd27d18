/** The cache's error type (pkg/cache/errors.go) and Go's `error` interface values. */
module CacheErrors {
  import opened Basics

  type ProblemType = string

  const NotJsonifiable: ProblemType := "not jsonifiable"
  const ExceedsTotalCacheSize: ProblemType := "exceeds total cache size"
  const ExceedsCacheSize: ProblemType := "exceeds cache size"
  const ObjectToLarge: ProblemType := "object to large"
  const NoItem: ProblemType := "no item"

  /** An error wrapped by a `CacheError`: another library's error, or a cache error. */
  datatype WrappedError =
    | LibraryError(message: string)
    | WrappedCacheError(inner: CacheError)
  {
    /** The wrapped error's `Error()` text. */
    function Message(): string
      decreases this, 0
    {
      match this
      case LibraryError(m) => m
      case WrappedCacheError(c) => c.Error()
    }
  }

  /** `CacheError`: a problem kind and an optional wrapped error (nil when `None`). */
  datatype CacheError = CacheError(problem: ProblemType, wrappedError: Option<WrappedError>)
  {
    /** `(*CacheError).Error()`: the problem, " wrapped - ", the wrapped error's text, a space. */
    function Error(): (r: string)
      ensures |r| > |problem| + 11 && r[..|problem|] == problem && r[|r| - 1] == ' '
      decreases this, 1
    {
      var wrapped := if wrappedError.Some? then wrappedError.value.Message() else "no wrapped error";
      problem + " wrapped - " + wrapped + " "
    }
  }

  /** `NewCacheError`: a fresh error holding exactly the given problem and wrapped error. */
  function NewCacheError(problem: ProblemType, wrapped: Option<WrappedError>): (r: CacheError)
    ensures r.problem == problem && r.wrappedError == wrapped
  {
    CacheError(problem, wrapped)
  }

  /**
   * A value of Go's `error` interface as the cache returns it: the nil interface, an
   * interface holding a `*CacheError` (the nil pointer when `pointer` is `None`), or an
   * error of another library.
   */
  datatype ErrorValue =
    | Nil
    | CacheErrorPointer(pointer: Option<CacheError>)
    | LibraryErrorValue(message: string)
  {
    /** `err == nil` in Go: true only for the nil interface, not for a nil `*CacheError` inside one. */
    predicate IsNil() {
      Nil?
    }
  }

  /** The five problem kinds are pairwise distinct. */
  lemma ProblemKindsDistinct()
    ensures NotJsonifiable != ExceedsTotalCacheSize && NotJsonifiable != ExceedsCacheSize
    ensures NotJsonifiable != ObjectToLarge && NotJsonifiable != NoItem
    ensures ExceedsTotalCacheSize != ExceedsCacheSize && ExceedsTotalCacheSize != ObjectToLarge
    ensures ExceedsTotalCacheSize != NoItem && ExceedsCacheSize != ObjectToLarge
    ensures ExceedsCacheSize != NoItem && ObjectToLarge != NoItem
  {
  }

  /** Without a wrapped error, the text reads "<problem> wrapped - no wrapped error ". */
  lemma ErrorWithoutWrapped(e: CacheError)
    requires e.wrappedError.None?
    ensures e.Error() == e.problem + " wrapped - no wrapped error "
  {
  }

  /**
   * With a wrapped error, its text takes the place of "no wrapped error", so the wrapped
   * message can be read back from the rendering.
   */
  lemma ErrorEmbedsWrapped(e: CacheError)
    requires e.wrappedError.Some?
    ensures var r := e.Error(); var m := e.wrappedError.value.Message();
      |r| == |e.problem| + 11 + |m| + 1 &&
      r[..|e.problem| + 11] == e.problem + " wrapped - " &&
      r[|e.problem| + 11 .. |r| - 1] == m
  {
    var m := e.wrappedError.value.Message();
    var r := e.Error();
    assert r == (e.problem + " wrapped - ") + m + " ";
  }

  /** Errors without wrapped errors render distinctly exactly when their problems differ. */
  lemma {:induction false} ErrorDistinguishesProblems(e1: CacheError, e2: CacheError)
    requires e1.wrappedError.None? && e2.wrappedError.None?
    ensures e1.Error() == e2.Error() <==> e1.problem == e2.problem
  {
    var suffix := " wrapped - no wrapped error ";
    if e1.Error() == e2.Error() {
      assert e1.Error() == e1.problem + suffix;
      assert e2.Error() == e2.problem + suffix;
      assert |e1.problem| == |e2.problem|;
      assert e1.problem == e1.Error()[..|e1.problem|];
    }
  }
}
