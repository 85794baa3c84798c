/**
 * Decoding of the `commonProperties` element: one entry per declared
 * property keyed by its label (or its name), and the initial mixture as a
 * map from species to amount stored under `initial_composition`.
 */
module CommonProperties {
  import opened Wrappers
  import opened Xml
  import opened Values
  import opened Assoc

  /** The amount of one component of the initial mixture. */
  datatype Amount = Amount(amount: real, units: string)

  /** An entry of the decoded common properties. */
  datatype CommonEntry =
    | Scalar(value: Value, units: string, name: string)
    | Composition(components: map<string, Amount>)

  /** The only way decoding of the common properties fails: an amount whose text is not a number. */
  datatype DecodeError = UnparsableAmount(text: string)

  /** The key under which the mixture is stored. */
  const CompositionKey := "initial_composition"

  /** The `name` attribute value that marks the mixture property. */
  const CompositionName := "initial composition"

  /** The key of a declared property: its label, or its name when the label is empty. */
  function EntryKey(p: Element): string {
    var labelText := Get(p, "label", "");
    if labelText != "" then labelText else Get(p, "name", "")
  }

  /**
   * The entry of a declared property: with a `value` child, that child's text
   * coerced to a number where it parses; without one, the property's own
   * text as it is.
   */
  function ScalarOf(parse: string -> Option<real>, p: Element): CommonEntry {
    Scalar(DeclaredValue(parse, p), Get(p, "units", ""), Get(p, "name", ""))
  }

  /** The value of a declared property. */
  function DeclaredValue(parse: string -> Option<real>, p: Element): Value {
    match Find(p, "value")
    case Some(v) => Coerce(parse, v.text)
    case None => (match p.text case Some(t) => Str(t) case None => Null)
  }

  /** The key and entry of each declared property, in declaration order. */
  function Entries(parse: string -> Option<real>, ps: seq<Element>): (r: seq<(string, CommonEntry)>)
    ensures |r| == |ps|
    ensures forall i :: 0 <= i < |ps| ==> r[i] == (EntryKey(ps[i]), ScalarOf(parse, ps[i]))
  {
    if ps == [] then [] else Entries(parse, ps[..|ps| - 1]) + [(EntryKey(ps[|ps| - 1]), ScalarOf(parse, ps[|ps| - 1]))]
  }

  /** Reading one more property assigns its entry under its key. */
  lemma ScalarsSnoc(parse: string -> Option<real>, ps: seq<Element>, i: nat)
    requires i < |ps|
    ensures ScalarsOf(parse, ps[..i + 1]) == ScalarsOf(parse, ps[..i])[EntryKey(ps[i]) := ScalarOf(parse, ps[i])]
  {
    assert ps[..i + 1][..i] == ps[..i];
    assert Entries(parse, ps[..i + 1]) == Entries(parse, ps[..i]) + [(EntryKey(ps[i]), ScalarOf(parse, ps[i]))];
    AssignSnoc(Entries(parse, ps[..i]), EntryKey(ps[i]), ScalarOf(parse, ps[i]));
  }

  /** The entries of the declared properties, a later key replacing an earlier one. */
  function ScalarsOf(parse: string -> Option<real>, ps: seq<Element>): map<string, CommonEntry> {
    Assign(Entries(parse, ps))
  }

  /** A component counts only when it has both a species link and an amount. */
  predicate Counts(c: Element) {
    Find(c, "speciesLink").Some? && Find(c, "amount").Some?
  }

  /** The number of an `amount` element: 0 for a missing or empty text, else the parsed text. */
  function AmountValue(parse: string -> Option<real>, a: Element): Result<real, DecodeError> {
    match a.text
    case None => Success(0.0)
    case Some(t) =>
      if t == "" then Success(0.0)
      else match parse(t)
           case Some(r) => Success(r)
           case None => Failure(UnparsableAmount(t))
  }

  /** The preferred key of a counting component. */
  function SpeciesKey(c: Element): string
    requires Counts(c)
  {
    Get(Find(c, "speciesLink").value, "preferredKey", "")
  }

  /** A counting component whose amount does not parse. */
  predicate Unparsable(parse: string -> Option<real>, c: Element) {
    Counts(c) && AmountValue(parse, Find(c, "amount").value).Failure?
  }

  /**
   * The species key and amount of each counting component, in order; the
   * first amount that does not parse aborts the whole list.
   */
  function Components(parse: string -> Option<real>, cs: seq<Element>): Result<seq<(string, Amount)>, DecodeError> {
    if cs == [] then Success([])
    else
      var c := cs[|cs| - 1];
      match Components(parse, cs[..|cs| - 1])
      case Failure(e) => Failure(e)
      case Success(pairs) =>
        if !Counts(c) then Success(pairs)
        else
          var a := Find(c, "amount").value;
          match AmountValue(parse, a)
          case Failure(e) => Failure(e)
          case Success(r) => Success(pairs + [(SpeciesKey(c), Amount(r, Get(a, "units", "")))])
  }

  /** The mixture: one amount per species key, a later component replacing an earlier. */
  function CompositionOf(parse: string -> Option<real>, cs: seq<Element>): Result<map<string, Amount>, DecodeError> {
    match Components(parse, cs)
    case Failure(e) => Failure(e)
    case Success(pairs) => Success(Assign(pairs))
  }

  /** `parse_common_properties`. */
  function CommonPropertiesOf(parse: string -> Option<real>, root: Element): Result<map<string, CommonEntry>, DecodeError> {
    match Find(root, "commonProperties")
    case None => Success(map[])
    case Some(cp) =>
      var scalars := ScalarsOf(parse, FindAll(cp, "property"));
      match FindDeepWithAttr(cp, "property", "name", CompositionName)
      case None => Success(scalars)
      case Some(ic) =>
        match CompositionOf(parse, FindAll(ic, "component"))
        case Failure(e) => Failure(e)
        case Success(m) => Success(scalars[CompositionKey := Composition(m)])
  }

  /** The loop over the declared properties. */
  method CollectScalars(parse: string -> Option<real>, props: seq<Element>) returns (properties: map<string, CommonEntry>)
    ensures properties == ScalarsOf(parse, props)
  {
    properties := map[];
    var i := 0;
    while i < |props|
      invariant 0 <= i <= |props|
      invariant properties == ScalarsOf(parse, props[..i])
    {
      var prop := props[i];
      var value: Value;
      var valueElem := Find(prop, "value");
      if valueElem.Some? {
        value := Coerce(parse, valueElem.value.text);
      } else if prop.text.Some? {
        value := Str(prop.text.value);
      } else {
        value := Null;
      }
      assert value == DeclaredValue(parse, prop);
      var entry := Scalar(value, Get(prop, "units", ""), Get(prop, "name", ""));
      assert entry == ScalarOf(parse, prop);
      ScalarsSnoc(parse, props, i);
      properties := properties[EntryKey(prop) := entry];
      i := i + 1;
    }
    assert props[..i] == props;
  }

  /** The loop over the components of the mixture, stopping at the first amount that does not parse. */
  method CollectComposition(parse: string -> Option<real>, components: seq<Element>)
    returns (result: Result<map<string, Amount>, DecodeError>)
    ensures result == CompositionOf(parse, components)
  {
    var composition := map[];
    ghost var pairs := [];
    var i := 0;
    while i < |components|
      invariant 0 <= i <= |components|
      invariant Components(parse, components[..i]) == Success(pairs)
      invariant composition == Assign(pairs)
    {
      assert components[..i + 1][..i] == components[..i];
      var component := components[i];
      var speciesLink := Find(component, "speciesLink");
      var amount := Find(component, "amount");
      if speciesLink.Some? && amount.Some? {
        var speciesKey := Get(speciesLink.value, "preferredKey", "");
        var a := AmountValue(parse, amount.value);
        if a.Failure? {
          assert Components(parse, components[..i + 1]) == Failure(a.error);
          ComponentsAbortAt(parse, components, i + 1);
          return Failure(a.error);
        }
        var amountEntry := Amount(a.value, Get(amount.value, "units", ""));
        AssignSnoc(pairs, speciesKey, amountEntry);
        composition := composition[speciesKey := amountEntry];
        pairs := pairs + [(speciesKey, amountEntry)];
      }
      i := i + 1;
    }
    assert components[..i] == components;
    return Success(composition);
  }

  /** `parse_common_properties`. */
  method ParseCommonProperties(parse: string -> Option<real>, root: Element)
    returns (result: Result<map<string, CommonEntry>, DecodeError>)
    ensures result == CommonPropertiesOf(parse, root)
  {
    var commonProps := Find(root, "commonProperties");
    if commonProps.None? {
      return Success(map[]);
    }
    var properties := CollectScalars(parse, FindAll(commonProps.value, "property"));
    var initialComp := FindDeepWithAttr(commonProps.value, "property", "name", CompositionName);
    if initialComp.Some? {
      var composition := CollectComposition(parse, FindAll(initialComp.value, "component"));
      if composition.Failure? {
        return Failure(composition.error);
      }
      properties := properties[CompositionKey := Composition(composition.value)];
    }
    return Success(properties);
  }

  /** Once a prefix of the components fails, the whole list fails with the same error. */
  lemma {:induction false} ComponentsAbortAt(parse: string -> Option<real>, cs: seq<Element>, n: nat)
    requires n <= |cs| && Components(parse, cs[..n]).Failure?
    ensures Components(parse, cs) == Components(parse, cs[..n])
    decreases |cs| - n
  {
    if n < |cs| {
      assert cs[..n + 1][..n] == cs[..n];
      ComponentsAbortAt(parse, cs, n + 1);
    } else {
      assert cs[..n] == cs;
    }
  }
}
