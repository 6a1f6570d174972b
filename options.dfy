/** An optional value: the models use it for JavaScript's `null`/`undefined`
    where the source uses them to mean "absent". */
module Options {

  datatype Option<T> = None | Some(value: T) {
    /** The value if present, `default` otherwise (JavaScript's `x ?? default`). */
    function GetOr(default: T): T {
      match this
      case Some(v) => v
      case None => default
    }
  }

  /** `f` applied to every element in order, or `None` as soon as one
      application gives `None` (a loop whose body can throw). */
  function MapAll<A, B>(xs: seq<A>, f: A -> Option<B>): Option<seq<B>>
  {
    if |xs| == 0 then Some([])
    else
      var prev := MapAll(xs[..|xs| - 1], f);
      var y := f(xs[|xs| - 1]);
      if prev.None? || y.None? then None else Some(prev.value + [y.value])
  }

  /** The results for the first `i + 1` elements extend those for the first `i`. */
  lemma MapAllStep<A, B>(xs: seq<A>, f: A -> Option<B>, i: nat)
    requires i < |xs|
    ensures var prev := MapAll(xs[..i], f);
      MapAll(xs[..i + 1], f) == if prev.None? || f(xs[i]).None? then None else Some(prev.value + [f(xs[i]).value])
  {
    assert xs[..i + 1][..i] == xs[..i];
  }

  /** One `None` makes the whole result `None`. */
  lemma {:induction false} MapAllFails<A, B>(xs: seq<A>, f: A -> Option<B>, i: nat)
    requires i < |xs| && f(xs[i]).None?
    ensures MapAll(xs, f).None?
  {
    if i < |xs| - 1 {
      assert xs[..|xs| - 1][i] == xs[i];
      MapAllFails(xs[..|xs| - 1], f, i);
    }
  }

  /** There is a result exactly when every application gives one, and then
      it holds those results in order. */
  lemma {:induction false} MapAllSpec<A, B>(xs: seq<A>, f: A -> Option<B>)
    ensures MapAll(xs, f).Some? <==> forall i :: 0 <= i < |xs| ==> f(xs[i]).Some?
    ensures MapAll(xs, f).Some? ==>
      |MapAll(xs, f).value| == |xs|
      && forall i :: 0 <= i < |xs| ==> Some(MapAll(xs, f).value[i]) == f(xs[i])
  {
    if |xs| > 0 {
      var p := xs[..|xs| - 1];
      MapAllSpec(p, f);
      assert forall i :: 0 <= i < |p| ==> xs[i] == p[i];
      var prev := MapAll(p, f);
      var y := f(xs[|xs| - 1]);
      if prev.Some? && y.Some? {
        var ys := prev.value + [y.value];
        assert MapAll(xs, f) == Some(ys);
        forall i | 0 <= i < |xs|
          ensures Some(ys[i]) == f(xs[i])
        {
          if i < |p| {
            assert ys[i] == prev.value[i];
          }
        }
      } else if prev.None? {
        var i :| 0 <= i < |p| && f(p[i]).None?;
        assert xs[i] == p[i];
      }
    }
  }
}
