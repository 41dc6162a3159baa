/**
 * Converting a sequence element by element, in order, where the first failing
 * element aborts the whole conversion (Rust's `?` inside a `for` loop).
 */
module Sequences {
  import opened Wrappers

  /** A conversion that stopped: the elements converted before it, and the error. */
  datatype Partial<B, E> = Partial(done: seq<B>, error: E)

  /** Converts `s` with `f` from the front; the first failure wins. */
  function MapAll<A, B, E>(s: seq<A>, f: A -> Result<B, E>): (r: Result<seq<B>, Partial<B, E>>)
    ensures r.Success? ==> |r.value| == |s|
    ensures r.Failure? ==> |r.error.done| < |s|
    decreases |s|
  {
    if s == [] then Success([])
    else
      match MapAll(s[..|s| - 1], f)
      case Failure(p) => Failure(p)
      case Success(done) =>
        match f(s[|s| - 1])
        case Failure(e) => Failure(Partial(done, e))
        case Success(b) => Success(done + [b])
  }

  /** The conversion succeeds exactly when every element converts, and keeps their order. */
  lemma {:induction false} MapAllSucceeds<A, B, E>(s: seq<A>, f: A -> Result<B, E>)
    ensures MapAll(s, f).Success? <==> forall j :: 0 <= j < |s| ==> f(s[j]).Success?
    ensures MapAll(s, f).Success? ==>
      forall j :: 0 <= j < |s| ==> f(s[j]).Success? && f(s[j]).value == MapAll(s, f).value[j]
    decreases |s|
  {
    if s != [] {
      var init := s[..|s| - 1];
      MapAllSucceeds(init, f);
      assert forall j :: 0 <= j < |init| ==> init[j] == s[j];
    }
  }

  /**
   * A failure is reported at the first element that does not convert, with
   * the conversions of all the elements before it.
   */
  lemma {:induction false} MapAllStopsAtFirstFailure<A, B, E>(s: seq<A>, f: A -> Result<B, E>)
    requires MapAll(s, f).Failure?
    ensures var p := MapAll(s, f).error;
      |p.done| < |s| && f(s[|p.done|]).Failure? && f(s[|p.done|]).error == p.error &&
      forall j :: 0 <= j < |p.done| ==> f(s[j]).Success? && f(s[j]).value == p.done[j]
    decreases |s|
  {
    var init := s[..|s| - 1];
    assert forall j :: 0 <= j < |init| ==> init[j] == s[j];
    if MapAll(init, f).Failure? {
      MapAllStopsAtFirstFailure(init, f);
    } else {
      MapAllSucceeds(init, f);
    }
  }

  /** Once a prefix fails, the whole sequence fails in the same way. */
  lemma {:induction false} MapAllFailureExtends<A, B, E>(s: seq<A>, k: nat, f: A -> Result<B, E>)
    requires k <= |s|
    requires MapAll(s[..k], f).Failure?
    ensures MapAll(s, f) == MapAll(s[..k], f)
    decreases |s| - k
  {
    if k < |s| {
      assert s[..k + 1][..k] == s[..k];
      assert MapAll(s[..k + 1], f) == MapAll(s[..k], f);
      MapAllFailureExtends(s, k + 1, f);
    } else {
      assert s[..k] == s;
    }
  }
}
