/** Option and Result values shared by the server and the client models. */
module Wrappers {

  /** A value that may be absent: a JavaScript property that is missing, a file that was not chosen. */
  datatype Option<+T> = None | Some(value: T)

  /** The outcome of a step that can fail with a user-visible message. */
  datatype Result<+T, +E> = Ok(value: T) | Err(error: E)

  /** The zero- or one-element sequence holding an option's value. */
  function OptionToSeq<T>(o: Option<T>): (s: seq<T>)
    ensures |s| <= 1
    ensures o.Some? <==> |s| == 1
    ensures o.Some? ==> s[0] == o.value
  {
    match o
    case None => []
    case Some(v) => [v]
  }

  /** The values of the present options, in order. */
  function Present<T>(os: seq<Option<T>>): (r: seq<T>)
    ensures |r| <= |os|
  {
    if os == [] then [] else Present(os[..|os| - 1]) + OptionToSeq(os[|os| - 1])
  }

  /** The positions of the present options, in order. */
  function PresentIndices<T>(os: seq<Option<T>>): seq<nat>
  {
    if os == [] then [] else PresentIndices(os[..|os| - 1]) + (if os[|os| - 1].Some? then [|os| - 1] else [])
  }

  /** The k-th present value sits at the k-th present position. */
  lemma {:induction false} PresentAtIndices<T>(os: seq<Option<T>>)
    ensures |PresentIndices(os)| == |Present(os)|
    ensures forall k :: 0 <= k < |PresentIndices(os)| ==>
      PresentIndices(os)[k] < |os| && os[PresentIndices(os)[k]] == Some(Present(os)[k])
  {
    if os != [] {
      var n := |os| - 1;
      var init := os[..n];
      PresentAtIndices(init);
      var p, r := PresentIndices(init), Present(init);
      forall k | 0 <= k < |p|
        ensures PresentIndices(os)[k] < |os| && os[PresentIndices(os)[k]] == Some(Present(os)[k])
      {
        assert PresentIndices(os)[k] == p[k] && Present(os)[k] == r[k];
        assert os[p[k]] == init[p[k]];
      }
    }
  }

  /** Present positions are listed in increasing order, each once. */
  lemma {:induction false} PresentIndicesIncrease<T>(os: seq<Option<T>>)
    ensures forall k :: 0 <= k < |PresentIndices(os)| ==> PresentIndices(os)[k] < |os|
    ensures forall k, l :: 0 <= k < l < |PresentIndices(os)| ==> PresentIndices(os)[k] < PresentIndices(os)[l]
  {
    if os != [] {
      PresentIndicesIncrease(os[..|os| - 1]);
    }
  }

  /** A position is listed exactly when its option is present. */
  lemma {:induction false} PresentIndicesExact<T>(os: seq<Option<T>>)
    ensures forall i :: 0 <= i < |os| ==> (os[i].Some? <==> i in PresentIndices(os))
  {
    if os != [] {
      var n := |os| - 1;
      var init := os[..n];
      PresentIndicesExact(init);
      PresentIndicesIncrease(init);
      var p := PresentIndices(init);
      var last: seq<nat> := if os[n].Some? then [n] else [];
      assert PresentIndices(os) == p + last;
      assert n !in p;
      forall i | 0 <= i < |os|
        ensures os[i].Some? <==> i in PresentIndices(os)
      {
        if i < n {
          assert os[i] == init[i];
          assert i in PresentIndices(os) <==> i in p;
        } else {
          assert os[n].Some? <==> n in last;
        }
      }
    }
  }
}
