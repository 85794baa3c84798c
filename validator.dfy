/**
 * The pre-parse structural gate: a document passes when its root has the
 * three required direct children and at least one data group exists at any
 * depth.  A document that cannot be read yields a single error instead.
 */
module Validator {
  import opened Xml

  /** The outcome of reading and parsing the file, which happens before validation. */
  datatype Document = Parsed(root: Element) | Malformed(reason: string) | Unreadable(reason: string)

  datatype ValidationError =
    | MissingElement(name: string)   // a required direct child of the root is absent
    | NoDataGroups                   // no dataGroup element anywhere below the root
    | ParseError(reason: string)     // the text is not well-formed XML
    | ProcessError(reason: string)   // any other failure while reading

  const RequiredElements: seq<string> := ["experimentType", "apparatus", "commonProperties"]

  /** One error per name of `names` that is not a direct child of `root`, in the order of `names`. */
  function MissingOf(root: Element, names: seq<string>): seq<ValidationError> {
    if names == [] then []
    else MissingOf(root, names[..|names| - 1])
         + (if Find(root, names[|names| - 1]).None? then [MissingElement(names[|names| - 1])] else [])
  }

  /** The errors a well-formed document produces. */
  function StructureErrors(root: Element): seq<ValidationError> {
    MissingOf(root, RequiredElements)
    + (if FindAllDeep(root, "dataGroup") == [] then [NoDataGroups] else [])
  }

  /** `validate_xml_structure`: `ok` holds exactly when no error was collected. */
  method ValidateStructure(doc: Document) returns (ok: bool, errors: seq<ValidationError>)
    ensures ok <==> errors == []
    ensures doc.Parsed? ==> errors == StructureErrors(doc.root)
    ensures doc.Malformed? ==> errors == [ParseError(doc.reason)]
    ensures doc.Unreadable? ==> errors == [ProcessError(doc.reason)]
  {
    errors := [];
    match doc {
      case Malformed(reason) =>
        errors := errors + [ParseError(reason)];
        return false, errors;
      case Unreadable(reason) =>
        errors := errors + [ProcessError(reason)];
        return false, errors;
      case Parsed(root) =>
        var i := 0;
        while i < |RequiredElements|
          invariant 0 <= i <= |RequiredElements|
          invariant errors == MissingOf(root, RequiredElements[..i])
        {
          assert RequiredElements[..i + 1][..i] == RequiredElements[..i];
          if Find(root, RequiredElements[i]).None? {
            errors := errors + [MissingElement(RequiredElements[i])];
          }
          i := i + 1;
        }
        assert RequiredElements[..i] == RequiredElements;
        var dataGroups := FindAllDeep(root, "dataGroup");
        if dataGroups == [] {
          errors := errors + [NoDataGroups];
        }
        ok := |errors| == 0;
    }
  }

  lemma {:induction false} MissingOfMeaning(root: Element, names: seq<string>)
    ensures |MissingOf(root, names)| <= |names|
    ensures forall e :: e in MissingOf(root, names) <==> e.MissingElement? && e.name in names && Find(root, e.name).None?
  {
    if names != [] {
      MissingOfMeaning(root, names[..|names| - 1]);
      assert names == names[..|names| - 1] + [names[|names| - 1]];
    }
  }

  /**
   * A required element is reported exactly when it is missing, the missing
   * data group exactly when there is none, and nothing else is reported.
   */
  lemma StructureErrorsMeaning(root: Element)
    ensures |StructureErrors(root)| <= 4
    ensures forall n :: MissingElement(n) in StructureErrors(root) <==> n in RequiredElements && Find(root, n).None?
    ensures NoDataGroups in StructureErrors(root) <==> FindAllDeep(root, "dataGroup") == []
    ensures forall e :: e in StructureErrors(root) ==> e.MissingElement? || e.NoDataGroups?
  {
    MissingOfMeaning(root, RequiredElements);
  }

  lemma {:induction false} MissingOfEmpty(root: Element, names: seq<string>)
    ensures MissingOf(root, names) == [] <==> forall n :: n in names ==> Find(root, n).Some?
  {
    if names != [] {
      var init := names[..|names| - 1];
      MissingOfEmpty(root, init);
      assert names == init + [names[|names| - 1]];
      assert forall n :: n in names <==> n in init || n == names[|names| - 1];
    }
  }

  /** A well-formed document passes exactly when all three elements and some data group are there. */
  lemma PassesIff(root: Element)
    ensures StructureErrors(root) == [] <==>
              (forall n :: n in RequiredElements ==> Find(root, n).Some?) && FindAllDeep(root, "dataGroup") != []
  {
    MissingOfEmpty(root, RequiredElements);
  }

  /** With the three elements present, a document without data groups reports exactly one error. */
  lemma OnlyDataGroupsMissing(root: Element)
    requires forall n :: n in RequiredElements ==> Find(root, n).Some?
    requires FindAllDeep(root, "dataGroup") == []
    ensures StructureErrors(root) == [NoDataGroups]
  {
    MissingOfEmpty(root, RequiredElements);
  }
}
