/** Why three upload slots suffice: reflection lists the packet class's
    parameterless getters under distinct names, and only three names lead
    to an acceleration field. */
module GetterBounds {
  import opened Basics
  import opened Messages

  /** The generated packet classes have at most one parameterless method of
      each name (reflection could list bridge methods sharing a name, which
      those classes do not have). */
  predicate NoArgNamesDistinct(gs: seq<Getter>) {
    forall i, j :: 0 <= i < j < |gs| && !gs[i].hasParams && !gs[j].hasParams ==> gs[i].name != gs[j].name
  }

  /** The field names whose readings are kept, as a set. */
  const ACCEL_FIELDS: set<string> := {"x_acceleration", "y_acceleration", "z_acceleration"}

  /** The acceleration field a getter fills, if it is an acceleration getter. */
  function AccelKey(g: Getter): Option<string> {
    if AccelOf(g) != [] then Some(Classify(g).field) else None
  }

  /** The number of present entries among the first `n`. */
  function Present(keys: seq<Option<string>>, n: nat): nat
    requires n <= |keys|
    decreases n
  {
    if n == 0 then 0 else Present(keys, n - 1) + (if keys[n - 1].Some? then 1 else 0)
  }

  /** The present entries among the first `n`, as a set. */
  function PresentSet(keys: seq<Option<string>>, n: nat): set<string>
    requires n <= |keys|
    decreases n
  {
    if n == 0 then {} else PresentSet(keys, n - 1) + (if keys[n - 1].Some? then {keys[n - 1].value} else {})
  }

  lemma {:induction false} PresentOrigin(keys: seq<Option<string>>, n: nat, v: string)
    requires n <= |keys| && v in PresentSet(keys, n)
    ensures exists i :: 0 <= i < n && keys[i] == Some(v)
    decreases n
  {
    if v !in PresentSet(keys, n - 1) {
      assert keys[n - 1] == Some(v);
    } else {
      PresentOrigin(keys, n - 1, v);
    }
  }

  /** Present entries that never repeat are as many as the set they form. */
  lemma {:induction false} PresentDistinct(keys: seq<Option<string>>, n: nat)
    requires n <= |keys|
    requires forall i, j :: 0 <= i < j < |keys| && keys[i].Some? ==> keys[i] != keys[j]
    ensures Present(keys, n) == |PresentSet(keys, n)|
    decreases n
  {
    if n > 0 {
      PresentDistinct(keys, n - 1);
      var before := PresentSet(keys, n - 1);
      if keys[n - 1].Some? {
        var v := keys[n - 1].value;
        if v in before {
          PresentOrigin(keys, n - 1, v);
          assert false;
        }
        assert |before + {v}| == |before| + 1;
      }
    }
  }

  lemma {:induction false} PresentWithin(keys: seq<Option<string>>, n: nat, s: set<string>)
    requires n <= |keys|
    requires forall i :: 0 <= i < |keys| && keys[i].Some? ==> keys[i].value in s
    ensures PresentSet(keys, n) <= s
    decreases n
  {
    if n > 0 {
      PresentWithin(keys, n - 1, s);
    }
  }

  /** The acceleration keys of the first `n` getters number as many as the
      readings kept. */
  lemma {:induction false} ReadingsArePresent(gs: seq<Getter>, n: nat)
    requires n <= |gs|
    ensures |AccelReadings(gs, n)| == Present(seq(|gs|, i requires 0 <= i < |gs| => AccelKey(gs[i])), n)
    decreases n
  {
    if n > 0 {
      ReadingsArePresent(gs, n - 1);
    }
  }

  /** An acceleration getter takes no parameters, and its name is "get_"
      followed by one of the three acceleration fields. */
  lemma AccelField(g: Getter)
    requires AccelOf(g) != []
    ensures Classify(g).ToFields? && Classify(g).field in ACCEL_FIELDS
    ensures !g.hasParams && g.name == "get_" + Classify(g).field
  {
  }

  lemma AtMostThree(s: set<string>)
    requires s <= ACCEL_FIELDS
    ensures |s| <= 3
  {
    assert "x_acceleration"[0] != "y_acceleration"[0];
    assert "x_acceleration"[0] != "z_acceleration"[0];
    assert "y_acceleration"[0] != "z_acceleration"[0];
    assert |ACCEL_FIELDS| == 3;
    assert ACCEL_FIELDS == s + (ACCEL_FIELDS - s);
  }

  /** A packet class has at most three acceleration getters, so the three
      slots of `valuesToSend` always suffice and `MessageReceived`'s
      precondition holds for every packet class. */
  lemma DistinctGettersFitBuffer(gs: seq<Getter>)
    requires NoArgNamesDistinct(gs)
    ensures |AccelReadings(gs, |gs|)| <= 3
  {
    var keys := seq(|gs|, i requires 0 <= i < |gs| => AccelKey(gs[i]));
    forall i, j | 0 <= i < j < |keys| && keys[i].Some? ensures keys[i] != keys[j] {
      AccelField(gs[i]);
      if keys[j].Some? {
        AccelField(gs[j]);
      }
    }
    forall i | 0 <= i < |keys| && keys[i].Some? ensures keys[i].value in ACCEL_FIELDS {
      AccelField(gs[i]);
    }
    ReadingsArePresent(gs, |gs|);
    PresentDistinct(keys, |keys|);
    PresentWithin(keys, |keys|, ACCEL_FIELDS);
    AtMostThree(PresentSet(keys, |keys|));
  }
}
