/**
 * What the decoding of the common properties guarantees: a later property
 * with the same key wins, the mixture fails exactly when one of its counting
 * amounts does not parse (with the first such amount's error), and the
 * mixture property shows up twice, once as a scalar under its name and once
 * as the species map.
 */
module CommonPropertiesFacts {
  import opened Wrappers
  import opened Xml
  import opened Values
  import opened CommonProperties
  import opened Assoc

  /** The property at index `i` is the last one with its key. */
  predicate LastWithKey(ps: seq<Element>, i: int)
    requires 0 <= i < |ps|
  {
    forall j :: i < j < |ps| ==> EntryKey(ps[j]) != EntryKey(ps[i])
  }

  /** The keys are the keys of the declared properties. */
  lemma ScalarKeys(parse: string -> Option<real>, ps: seq<Element>)
    ensures forall k :: k in ScalarsOf(parse, ps) <==> exists i :: 0 <= i < |ps| && EntryKey(ps[i]) == k
  {
    var entries := Entries(parse, ps);
    assert ScalarsOf(parse, ps) == Assign(entries);
    AssignLastWins(entries);
    forall k | k in ScalarsOf(parse, ps) ensures exists i :: 0 <= i < |ps| && EntryKey(ps[i]) == k {
      var i :| 0 <= i < |entries| && entries[i].0 == k;
      assert entries[i].0 == EntryKey(ps[i]);
    }
    forall k | exists i :: 0 <= i < |ps| && EntryKey(ps[i]) == k ensures k in ScalarsOf(parse, ps) {
      var i :| 0 <= i < |ps| && EntryKey(ps[i]) == k;
      assert entries[i].0 == k;
    }
  }

  /** Each key holds the entry of the last declared property with that key. */
  lemma ScalarsLastWins(parse: string -> Option<real>, ps: seq<Element>)
    ensures forall i :: 0 <= i < |ps| && LastWithKey(ps, i) ==>
              EntryKey(ps[i]) in ScalarsOf(parse, ps) && ScalarsOf(parse, ps)[EntryKey(ps[i])] == ScalarOf(parse, ps[i])
  {
    var entries := Entries(parse, ps);
    AssignLastWins(entries);
    forall i | 0 <= i < |ps| && LastWithKey(ps, i)
      ensures EntryKey(ps[i]) in ScalarsOf(parse, ps) && ScalarsOf(parse, ps)[EntryKey(ps[i])] == ScalarOf(parse, ps[i])
    {
      assert LastOfKey(entries, i);
    }
  }

  /** Every entry decoded from a declared property is a scalar. */
  lemma ScalarsAreScalar(parse: string -> Option<real>, ps: seq<Element>)
    ensures forall k :: k in ScalarsOf(parse, ps) ==> ScalarsOf(parse, ps)[k].Scalar?
  {
    var entries := Entries(parse, ps);
    AssignValues(entries);
    forall k | k in ScalarsOf(parse, ps) ensures ScalarsOf(parse, ps)[k].Scalar? {
      var i :| 0 <= i < |entries| && entries[i] == (k, Assign(entries)[k]);
    }
  }

  /**
   * Only a `value` child is read as a number: a property without one keeps
   * its own text, and a `value` child whose text parses gives that number.
   */
  lemma ScalarValueSource(parse: string -> Option<real>, p: Element)
    ensures Find(p, "value").None? ==> ScalarOf(parse, p).value == (if p.text.Some? then Str(p.text.value) else Null)
    ensures Find(p, "value").Some? ==> ScalarOf(parse, p).value == Coerce(parse, Find(p, "value").value.text)
    ensures ScalarOf(parse, p).value.Num? ==> Find(p, "value").Some?
  {
  }

  /** The mixture fails to decode exactly when a counting component's amount does not parse. */
  lemma {:induction false} ComponentsFailIff(parse: string -> Option<real>, cs: seq<Element>)
    ensures Components(parse, cs).Failure? <==> exists j :: 0 <= j < |cs| && Unparsable(parse, cs[j])
  {
    if cs != [] {
      var n := |cs| - 1;
      ComponentsFailIff(parse, cs[..n]);
      assert forall j :: 0 <= j < n ==> cs[..n][j] == cs[j];
    }
  }

  /** Component `j` is the first whose amount does not parse. */
  predicate FirstUnparsable(parse: string -> Option<real>, cs: seq<Element>, j: int)
    requires 0 <= j < |cs|
  {
    Unparsable(parse, cs[j]) && forall l :: 0 <= l < j ==> !Unparsable(parse, cs[l])
  }

  /** A failed mixture carries the error of the first component whose amount does not parse. */
  lemma {:induction false} ComponentsFirstFailure(parse: string -> Option<real>, cs: seq<Element>)
    ensures Components(parse, cs).Failure? ==>
              exists j :: 0 <= j < |cs| && FirstUnparsable(parse, cs, j)
                          && Components(parse, cs).error == AmountValue(parse, Find(cs[j], "amount").value).error
  {
    if cs != [] {
      var n := |cs| - 1;
      var front := cs[..n];
      ComponentsFirstFailure(parse, front);
      if Components(parse, front).Failure? {
        var j :| 0 <= j < n && FirstUnparsable(parse, front, j)
                 && Components(parse, front).error == AmountValue(parse, Find(front[j], "amount").value).error;
        assert front[j] == cs[j];
        assert FirstUnparsable(parse, cs, j) by {
          forall l | 0 <= l < j ensures !Unparsable(parse, cs[l]) {
            assert front[l] == cs[l];
          }
        }
      } else if Components(parse, cs).Failure? {
        ComponentsFailIff(parse, front);
        assert FirstUnparsable(parse, cs, n) by {
          forall l | 0 <= l < n ensures !Unparsable(parse, cs[l]) {
            assert front[l] == cs[l];
          }
        }
      }
    }
  }

  /** The component at index `j` is the last counting component with its species key. */
  predicate LastWithSpecies(cs: seq<Element>, j: int)
    requires 0 <= j < |cs| && Counts(cs[j])
  {
    forall l :: j < l < |cs| && Counts(cs[l]) ==> SpeciesKey(cs[l]) != SpeciesKey(cs[j])
  }

  /** The amount a counting component contributes, when it parses. */
  function AmountOf(parse: string -> Option<real>, c: Element): Amount
    requires Counts(c) && !Unparsable(parse, c)
  {
    var a := Find(c, "amount").value;
    Amount(AmountValue(parse, a).value, Get(a, "units", ""))
  }

  /** A decoded mixture has one key per species key of a counting component. */
  lemma {:induction false} CompositionKeys(parse: string -> Option<real>, cs: seq<Element>)
    requires CompositionOf(parse, cs).Success?
    ensures forall k :: k in CompositionOf(parse, cs).value <==> exists j :: 0 <= j < |cs| && Counts(cs[j]) && SpeciesKey(cs[j]) == k
  {
    if cs != [] {
      var n := |cs| - 1;
      var pairs := Components(parse, cs[..n]).value;
      CompositionKeys(parse, cs[..n]);
      assert forall j :: 0 <= j < n ==> cs[..n][j] == cs[j];
      if Counts(cs[n]) {
        AssignSnoc(pairs, SpeciesKey(cs[n]), AmountOf(parse, cs[n]));
      }
    }
  }

  /** Each species key holds the amount and units of the last counting component with it. */
  lemma {:induction false} CompositionLastWins(parse: string -> Option<real>, cs: seq<Element>)
    requires CompositionOf(parse, cs).Success?
    ensures forall j :: 0 <= j < |cs| && Counts(cs[j]) && LastWithSpecies(cs, j) ==>
              !Unparsable(parse, cs[j])
              && SpeciesKey(cs[j]) in CompositionOf(parse, cs).value
              && CompositionOf(parse, cs).value[SpeciesKey(cs[j])] == AmountOf(parse, cs[j])
  {
    ComponentsFailIff(parse, cs);
    if cs != [] {
      var n := |cs| - 1;
      var front := cs[..n];
      assert forall j :: 0 <= j < n ==> front[j] == cs[j];
      ComponentsFailIff(parse, front);
      var pairs := Components(parse, front).value;
      CompositionLastWins(parse, front);
      if Counts(cs[n]) {
        AssignSnoc(pairs, SpeciesKey(cs[n]), AmountOf(parse, cs[n]));
        assert CompositionOf(parse, cs).value == Assign(pairs)[SpeciesKey(cs[n]) := AmountOf(parse, cs[n])];
      } else {
        assert CompositionOf(parse, cs).value == Assign(pairs);
      }
      forall j | 0 <= j < |cs| && Counts(cs[j]) && LastWithSpecies(cs, j)
        ensures SpeciesKey(cs[j]) in CompositionOf(parse, cs).value
        ensures CompositionOf(parse, cs).value[SpeciesKey(cs[j])] == AmountOf(parse, cs[j])
      {
        if j < n {
          assert cs[..n][j] == cs[j];
          assert LastWithSpecies(cs[..n], j) by {
            forall l | j < l < n && Counts(cs[..n][l]) ensures SpeciesKey(cs[..n][l]) != SpeciesKey(cs[..n][j]) {
              assert cs[..n][l] == cs[l];
            }
          }
        }
      }
    }
  }

  /**
   * The decoded common properties: none without a `commonProperties`
   * element; otherwise the property entries, plus the mixture under
   * `initial_composition` when a property anywhere below is named
   * `initial composition`; failing only when that mixture fails.
   */
  lemma CommonPropertiesShape(parse: string -> Option<real>, root: Element)
    ensures Find(root, "commonProperties").None? ==> CommonPropertiesOf(parse, root) == Success(map[])
    ensures Find(root, "commonProperties").Some? ==>
              var cp := Find(root, "commonProperties").value;
              var scalars := ScalarsOf(parse, FindAll(cp, "property"));
              match FindDeepWithAttr(cp, "property", "name", CompositionName)
              case None => CommonPropertiesOf(parse, root) == Success(scalars)
              case Some(ic) =>
                (CommonPropertiesOf(parse, root).Failure? <==> CompositionOf(parse, FindAll(ic, "component")).Failure?)
                && (CommonPropertiesOf(parse, root).Success? ==>
                      var m := CommonPropertiesOf(parse, root).value;
                      m[CompositionKey] == Composition(CompositionOf(parse, FindAll(ic, "component")).value)
                      && forall k :: k in scalars && k != CompositionKey ==> k in m && m[k] == scalars[k])
  {
  }

  /** A direct child property named `initial composition` is found by the deep search. */
  lemma DirectCompositionFound(cp: Element, p: Element)
    requires p in FindAll(cp, "property") && Get(p, "name", "") == CompositionName
    ensures FindDeepWithAttr(cp, "property", "name", CompositionName).Some?
  {
    WithTagMembers(cp.children, "property");
    ChildrenAreDescendants(cp);
    WithTagAndAttrMembers(Descendants(cp), "property", "name", CompositionName);
    assert p in WithTagAndAttr(Descendants(cp), "property", "name", CompositionName);
  }

  /**
   * A mixture property that is a direct, unlabelled child is decoded twice:
   * as a scalar entry under its name and as the species map under
   * `initial_composition`.
   */
  lemma CompositionAlsoScalar(parse: string -> Option<real>, root: Element, i: nat)
    requires Find(root, "commonProperties").Some?
    requires var ps := FindAll(Find(root, "commonProperties").value, "property");
             i < |ps| && Get(ps[i], "label", "") == "" && Get(ps[i], "name", "") == CompositionName
    requires CommonPropertiesOf(parse, root).Success?
    ensures var m := CommonPropertiesOf(parse, root).value;
            CompositionName in m && m[CompositionName].Scalar?
            && CompositionKey in m && m[CompositionKey].Composition?
  {
    var cp := Find(root, "commonProperties").value;
    var ps := FindAll(cp, "property");
    var scalars := ScalarsOf(parse, ps);
    ScalarKeys(parse, ps);
    ScalarsAreScalar(parse, ps);
    assert EntryKey(ps[i]) == CompositionName;
    assert CompositionName in scalars;
    DirectCompositionFound(cp, ps[i]);
    CommonPropertiesShape(parse, root);
  }
}
