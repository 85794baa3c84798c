/**
 * The decoder of an experiment record: it walks an already-parsed element
 * tree and gathers the file metadata, the experiment type, the apparatus, the
 * bibliography, the common properties and the data groups.
 */
module Decoder {
  import opened Wrappers
  import opened Xml
  import opened PyText
  import opened CommonProperties
  import opened DataGroups

  datatype Version = Version(major: string, minor: string)

  datatype Metadata = Metadata(
    author: string, doi: string, version: Option<Version>,
    firstPublication: string, lastModification: string)

  datatype Apparatus = Apparatus(kind: string, apparatusType: string)

  datatype Details = Details(author: string, journal: string, title: string, year: string)

  datatype Bibliography = Bibliography(description: string, doi: string, details: Option<Details>)

  /** The decoded record; an absent apparatus or bibliography is an empty dictionary in the source. */
  datatype ExperimentRecord = ExperimentRecord(
    metadata: Metadata,
    experimentType: string,
    apparatus: Option<Apparatus>,
    bibliography: Option<Bibliography>,
    commonProperties: map<string, CommonEntry>,
    datagroups: seq<DataGroup>)

  /**
   * `_get_text`: the stripped text of the first child with the tag, or the
   * empty string when there is no such child, it has no text, or its text is
   * made of whitespace only.
   */
  function GetText(parent: Element, tag: string): (r: string)
    ensures r == [] || (!IsSpace(r[0]) && !IsSpace(r[|r| - 1]))
    ensures r == [] <==> Find(parent, tag).None? || Find(parent, tag).value.text.None?
                         || IsBlank(Find(parent, tag).value.text.value)
    ensures r != [] ==> r == Strip(Find(parent, tag).value.text.value)
  {
    match Find(parent, tag)
    case None => ""
    case Some(e) =>
      match e.text
      case None => ""
      case Some(t) =>
        StripEmptyIffBlank(t);
        if t != "" then Strip(t) else ""
  }

  function MetadataOf(root: Element): Metadata {
    var version := match Find(root, "fileVersion")
                   case None => None
                   case Some(v) => Some(Version(GetText(v, "major"), GetText(v, "minor")));
    Metadata(GetText(root, "fileAuthor"), GetText(root, "fileDOI"), version,
             GetText(root, "firstPublicationDate"), GetText(root, "lastModificationDate"))
  }

  function ApparatusOf(root: Element): Option<Apparatus> {
    match Find(root, "apparatus")
    case None => None
    case Some(a) => Some(Apparatus(GetText(a, "kind"), Get(a, "type", "")))
  }

  function BibliographyOf(root: Element): Option<Bibliography> {
    match Find(root, "bibliographyLink")
    case None => None
    case Some(b) =>
      var details := match Find(b, "details")
                     case None => None
                     case Some(d) => Some(Details(GetText(d, "author"), GetText(d, "journal"),
                                                  GetText(d, "title"), GetText(d, "year")));
      Some(Bibliography(GetText(b, "description"), GetText(b, "referenceDOI"), details))
  }

  /** `parse_experiment`: fails only where the common properties fail. */
  function Decode(parse: string -> Option<real>, root: Element): Result<ExperimentRecord, DecodeError> {
    match CommonPropertiesOf(parse, root)
    case Failure(e) => Failure(e)
    case Success(props) =>
      Success(ExperimentRecord(MetadataOf(root), GetText(root, "experimentType"), ApparatusOf(root),
                               BibliographyOf(root), props, DataGroupsOf(parse, root)))
  }

  /** `parse_experiment`, calling the two loop-based parsers. */
  method ParseExperiment(parse: string -> Option<real>, root: Element) returns (result: Result<ExperimentRecord, DecodeError>)
    ensures result == Decode(parse, root)
  {
    var metadata := MetadataOf(root);
    var experimentType := GetText(root, "experimentType");
    var apparatus := ApparatusOf(root);
    var bibliography := BibliographyOf(root);
    var commonProperties := ParseCommonProperties(parse, root);
    if commonProperties.Failure? {
      return Failure(commonProperties.error);
    }
    var datagroups := ParseDataGroups(parse, root);
    return Success(ExperimentRecord(metadata, experimentType, apparatus, bibliography,
                                    commonProperties.value, datagroups));
  }

  /**
   * Decoding fails exactly when the mixture holds a counting component whose
   * amount does not parse; every other part of the tree always decodes.
   */
  lemma DecodeFailsIff(parse: string -> Option<real>, root: Element)
    ensures Decode(parse, root).Failure? <==>
              Find(root, "commonProperties").Some?
              && var cp := Find(root, "commonProperties").value;
                 FindDeepWithAttr(cp, "property", "name", CompositionName).Some?
                 && CompositionOf(parse, FindAll(FindDeepWithAttr(cp, "property", "name", CompositionName).value, "component")).Failure?
  {
  }

  /** A text without surrounding whitespace is read back unchanged. */
  lemma GetTextOfTrimmed(parent: Element, tag: string, t: string)
    requires Find(parent, tag).Some? && Find(parent, tag).value.text == Some(t)
    requires Trimmed(t)
    ensures GetText(parent, tag) == t
  {
    StripTrimmed(t);
  }
}
