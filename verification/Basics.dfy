/** Small things shared by all components. */
module Basics {

  datatype Option<+T> = None | Some(value: T)

  type Byte = b: int | 0 <= b < 256

  /** Nodes and clients by number. */
  type Node = nat

  lemma {:induction false} Minimum(keys: set<nat>) returns (least: nat)
    requires keys != {}
    ensures least in keys && forall j :: j in keys ==> least <= j
    decreases |keys|
  {
    least :| least in keys;
    var rest := keys - {least};
    assert forall j :: j in keys ==> j == least || j in rest;
    if rest != {} {
      var m := Minimum(rest);
      least := if least < m then least else m;
    }
  }

  lemma {:induction false} MinimumExists(keys: set<nat>)
    requires keys != {}
    ensures exists k :: k in keys && forall j :: j in keys ==> k <= j
  {
    var k := Minimum(keys);
  }

  /** The first key of an ordered map. */
  function Least(keys: set<nat>): (k: nat)
    requires keys != {}
    ensures k in keys && forall j :: j in keys ==> k <= j
  {
    MinimumExists(keys);
    var k :| k in keys && forall j :: j in keys ==> k <= j;
    k
  }

  /** Limits of zero act as limits of one. */
  function AtLeastOne(d: nat): nat {
    if d == 0 then 1 else d
  }
}
