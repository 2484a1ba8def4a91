/**
 * `Object.values` on an object whose keys are all array indices. Such keys are
 * enumerated in ascending numeric order (OrdinaryOwnPropertyKeys, section 10.1.11.1
 * of ECMA-262). `Values` builds the list smallest key first; its contract states the
 * length, the set of values and the first value, which is all the night resolution reads.
 */
module JsObjects {

  /**
   * A property key JavaScript treats as an array index: an integer from 0 to 2^32 - 2
   * (section 6.1.7 of ECMA-262). Only these keys are listed in ascending order.
   */
  type ArrayIndex = k: nat | k < 0xFFFF_FFFF

  /** Every non-empty finite set of naturals has a least element. */
  lemma {:induction false} Minimum(s: set<nat>) returns (least: nat)
    requires s != {}
    ensures least in s && forall j :: j in s ==> least <= j
  {
    var x :| x in s;
    if s == {x} {
      least := x;
    } else {
      var rest := s - {x};
      var k := Minimum(rest);
      least := if x < k then x else k;
      forall j | j in s ensures least <= j {
        if j != x { assert j in rest; }
      }
    }
  }

  lemma MinimumExists(s: set<nat>)
    requires s != {}
    ensures exists k :: k in s && forall j :: j in s ==> k <= j
  {
    var least := Minimum(s);
  }

  /** The smallest key of a non-empty key set. */
  function MinKey(s: set<nat>): (k: nat)
    requires s != {}
    ensures k in s && forall j :: j in s ==> k <= j
  {
    MinimumExists(s);
    var k :| k in s && forall j :: j in s ==> k <= j;
    k
  }

  /** `Object.values(m)`: one value per key; the first is the one under the smallest key. */
  function Values(m: map<ArrayIndex, int>): (vs: seq<int>)
    ensures |vs| == |m.Keys|
    ensures forall v :: v in vs <==> v in m.Values
    ensures m.Keys != {} ==> vs[0] == m[MinKey(m.Keys)]
    decreases m.Keys
  {
    if m.Keys == {} then []
    else
      var k := MinKey(m.Keys);
      var rest := m - {k};
      assert rest.Keys == m.Keys - {k};
      assert m.Values == rest.Values + {m[k]} by {
        forall v | v in m.Values ensures v in rest.Values + {m[k]} {
          var j :| j in m && m[j] == v;
          if j != k { assert j in rest; }
        }
      }
      [m[k]] + Values(rest)
  }
}
