/** A message cut into the calls it is handed over in. */
module Cuttings {
  import opened Bytes

  /** The concatenation of all pieces. */
  function Joined(ps: seq<seq<byte>>): (r: seq<byte>) {
    if ps == [] then [] else Joined(ps[..|ps| - 1]) + ps[|ps| - 1]
  }

  lemma {:induction false} JoinedPrefix(ps: seq<seq<byte>>, i: nat)
    requires i <= |ps|
    ensures |Joined(ps[..i])| <= |Joined(ps)|
    decreases |ps|
  {
    if i < |ps| {
      JoinedPrefix(ps[..|ps| - 1], i);
      assert ps[..|ps| - 1][..i] == ps[..i];
    } else {
      assert ps[..i] == ps;
    }
  }

  lemma JoinedNext(ps: seq<seq<byte>>, i: nat)
    requires i < |ps|
    ensures Joined(ps[..i + 1]) == Joined(ps[..i]) + ps[i]
    ensures |Joined(ps[..i])| + |ps[i]| <= |Joined(ps)|
  {
    assert ps[..i + 1][..i] == ps[..i];
    JoinedPrefix(ps, i + 1);
  }
}
