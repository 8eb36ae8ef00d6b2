/** Option and Result, the two failure-carrying shapes used throughout the model. */
module Wrappers {

  datatype Option<+T> = None | Some(value: T)

  datatype Result<+R, +E> = Ok(value: R) | Err(error: E)

  /** The values of the `Some` entries of `opts`, in order: a loop that pushes only what it finds. */
  function Somes<T>(opts: seq<Option<T>>): (r: seq<T>)
    ensures |r| <= |opts|
    ensures forall x :: x in r ==> Some(x) in opts
    decreases |opts|
  {
    if opts == [] then []
    else
      var init := opts[..|opts| - 1];
      var last := opts[|opts| - 1];
      assert forall o :: o in init ==> o in opts;
      Somes(init) + (if last.Some? then [last.value] else [])
  }

  /** One more entry of the prefix adds its value, if it has one, at the end. */
  lemma SomesPrefix<T>(opts: seq<Option<T>>, i: nat)
    requires i < |opts|
    ensures Somes(opts[..i + 1]) == Somes(opts[..i]) + (if opts[i].Some? then [opts[i].value] else [])
  {
    assert opts[..i + 1][..i] == opts[..i];
  }

  /** With every entry present nothing is dropped: one value per entry, in order. */
  lemma {:induction false} SomesAllPresent<T>(opts: seq<Option<T>>)
    requires forall k :: 0 <= k < |opts| ==> opts[k].Some?
    ensures |Somes(opts)| == |opts|
    ensures forall k :: 0 <= k < |opts| ==> Somes(opts)[k] == opts[k].value
    decreases |opts|
  {
    if opts != [] {
      var init := opts[..|opts| - 1];
      SomesAllPresent(init);
      var r := Somes(opts);
      assert r == Somes(init) + [opts[|opts| - 1].value];
      forall k | 0 <= k < |opts|
        ensures r[k] == opts[k].value
      {
        if k < |init| {
          assert opts[k] == init[k];
        }
      }
    }
  }

  /** Nothing is kept exactly when every entry is absent. */
  lemma {:induction false} SomesEmpty<T>(opts: seq<Option<T>>)
    ensures Somes(opts) == [] <==> forall k :: 0 <= k < |opts| ==> opts[k].None?
    decreases |opts|
  {
    if opts != [] {
      var init := opts[..|opts| - 1];
      SomesEmpty(init);
      if Somes(opts) == [] {
        forall k | 0 <= k < |opts|
          ensures opts[k].None?
        {
          if k < |init| {
            assert opts[k] == init[k];
          }
        }
      }
    }
  }
}
