/** The Option type used for Java's null and for calls that can fail. */
module Wrappers {

  /** `None` stands for Java's `null` or for a call that threw. */
  datatype Option<+T> = None | Some(value: T)

  /** Concatenation of a sequence of sequences, in order. */
  function Flatten<T>(ss: seq<seq<T>>): (r: seq<T>)
    decreases |ss|
  {
    if ss == [] then [] else Flatten(ss[..|ss| - 1]) + ss[|ss| - 1]
  }

  lemma {:induction false} FlattenMember<T>(ss: seq<seq<T>>, x: T)
    requires x in Flatten(ss)
    ensures exists i :: 0 <= i < |ss| && x in ss[i]
    decreases |ss|
  {
    if ss != [] {
      var last := |ss| - 1;
      if x in ss[last] {
      } else {
        FlattenMember(ss[..last], x);
        var i :| 0 <= i < last && x in ss[..last][i];
        assert x in ss[i];
      }
    }
  }

  lemma {:induction false} FlattenEmpty<T>(ss: seq<seq<T>>)
    ensures Flatten(ss) == [] <==> forall i :: 0 <= i < |ss| ==> ss[i] == []
    decreases |ss|
  {
    if ss != [] {
      FlattenEmpty(ss[..|ss| - 1]);
      assert forall i :: 0 <= i < |ss| - 1 ==> ss[..|ss| - 1][i] == ss[i];
    }
  }

  /** The first element of the concatenation comes from the first non-empty part. */
  lemma {:induction false} FlattenFirst<T>(ss: seq<seq<T>>, k: nat)
    requires k < |ss| && ss[k] != []
    requires forall i :: 0 <= i < k ==> ss[i] == []
    ensures Flatten(ss) != [] && Flatten(ss)[0] == ss[k][0]
    decreases |ss|
  {
    if k == |ss| - 1 {
      FlattenEmpty(ss[..k]);
    } else {
      FlattenFirst(ss[..|ss| - 1], k);
    }
  }
}
