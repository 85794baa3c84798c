# Experiment-record codec of the combustion data manager

This project models the codec at the heart of the combustion data manager, in Dafny. The codec reads and writes ReSpecTh-style XML records of combustion experiments.

**Decoding (appv2.py, `XMLParser`).** An already-parsed element tree becomes an experiment record made of:
- the file metadata;
- the experiment type;
- the apparatus;
- the bibliography;
- the common properties, including the initial mixture;
- the data groups.

Each data group becomes one row per data point, keyed by column names derived from the declared properties. Cell values are coerced number-or-text. Each group's table has its columns reordered by declaration order and carries summary statistics.

**Validation (`validate_xml_structure`).** The structural gate checks for the required children of the root and for at least one data group.

**Encoding (appv1.py, `create_enhanced_xml`).** A draft (basic information, conditions, optional parameters, data-group drafts) becomes an element tree in a fixed order. The tree is pretty-printed, and its whitespace-only lines are removed. The draft itself is assembled by four form rules:
- the composition entry;
- the optional-parameter dictionary;
- the Y-column record;
- the data-group record.

These rules are the methods of a `Session` class, whose fields are the lists the forms append to.

**Reduced encoder (appv2.py:808-878).** The second version's encoder is modelled too: no version element and no bibliography, and columns are declared under generated ids `x1`, `x2`, ….

**Read-back lemmas.** These connect the encoders to the decoder, applied to the encoded element tree (not to the printed text):
- the full encoder's tree passes the structural gate exactly when the draft has a data group;
- the full encoder's metadata, type, apparatus and bibliography read back as the draft's;
- a data group in the reduced encoder's tree reads back as its column names and one dictionary per row, holding what the decoder makes of each written cell.

**Modules, one per part of the program:**
- `Xml`: the element tree and ElementTree's lookups `find`, `findall`, `.//tag` and `get`.
- `PyText`: Python's `strip`, `split`, `join`, `replace` and `str` of an int.
- `Values`: number-or-text coercion.
- `Assoc`: dictionaries built by assignment in order.
- `Registry`: the static tables.
- `Decoder`, `CommonProperties` and `DataGroups`: the decoder, with `CommonPropertiesFacts` and `DataGroupFacts` holding its properties.
- `Validator`: the structural gate.
- `Draft`: the draft and the form rules.
- `Encoder`, with `EncoderFacts` and `EncodedGroups`: the first version's encoder.
- `SimpleEncoder`, with `SimpleEncoderFacts`: the second version's encoder.
- `RoundTrip` and `SimpleRoundTrip`: the read-back lemmas.

**Library code becomes parameters.**
- `float` of a string is `parse: string -> Option<real>`, with `None` where it raises.
- `str` of a float is `fmt: real -> string`.
- `str` of any other optional-parameter value is `show`.
- `minidom`'s pretty-printer is `pretty: Element -> string`.
- Reading and parsing a file becomes a `Validator.Document` value: either a tree or the reason it could not be read.

**Two behaviours of the code worth knowing:**
- *Mixture amounts.* `float(amount.text)` raises for any non-empty text that is not a number (appv2.py:250), so decoding returns a `Failure`. Only a missing or empty amount text gives 0.
- *Colliding column names.* When two declared properties share a column name, `point_data[column_name] = value` lets the later *child of the data point* win, whatever the declaration order (appv2.py:322). `DataGroupFacts.PointRowLastWins` states this.

## Model

| member | source | states |
|---|---|---|
| Values.Coerce | appv2.py:317-320 | a missing text gives `None`; a text `float` accepts gives its number; any other text is kept as it is |
| Xml.FirstWithTagFacts | appv2.py:361 | `find(tag)` finds something exactly when some child has the tag, and then it is the earliest such child |
| Xml.WithTagMembers | appv2.py:275 | `findall(tag)` keeps exactly the children with the tag |
| Xml.WithTagAndAttrMembers | appv2.py:240 | `.//property[@name=…]` keeps exactly the elements with the tag and that attribute value |
| Xml.NoDeepMatch | appv2.py:385 | a deep search for a tag occurring nowhere in the tree finds nothing |
| Assoc.AssignLastWins | appv2.py:232-237 | a dictionary built by assignments holds exactly the assigned keys, each with its last assigned value |
| Assoc.AssignValues | appv2.py:232-237 | every value held was assigned under its key |
| Decoder.GetText | appv2.py:359-364 | the result is empty exactly when the child is missing, has no text or has only whitespace; otherwise it is the stripped text, with no whitespace at either end |
| Decoder.GetTextOfTrimmed | appv2.py:359-364 | a child text with no surrounding whitespace is returned unchanged |
| Decoder.ParseExperiment | appv2.py:152-163 | the record gathers metadata, type, apparatus, bibliography, common properties and data groups, and equals the decoding function |
| Decoder.DecodeFailsIff | appv2.py:152-163 | decoding fails exactly when a property named `initial composition` below `commonProperties` has a counting component whose amount does not parse |
| CommonProperties.CollectScalars | appv2.py:217-237 | the loop over the declared properties builds the label-or-name keyed dictionary, in order, a later key overwriting |
| CommonProperties.CollectComposition | appv2.py:240-254 | the loop over the components builds the species map, stopping with the error of the first amount that does not parse |
| CommonProperties.ParseCommonProperties | appv2.py:211-256 | an empty dictionary without `commonProperties`; otherwise the scalar entries plus the mixture under `initial_composition` when the deep search finds it |
| CommonProperties.ComponentsAbortAt | appv2.py:243-252 | once a prefix of the components fails, the whole mixture fails with that same error |
| CommonPropertiesFacts.ScalarKeys | appv2.py:232-237 | the keys are exactly the label-or-name keys of the declared properties |
| CommonPropertiesFacts.ScalarsLastWins | appv2.py:232-237 | each key holds the entry of the last property with that key |
| CommonPropertiesFacts.ScalarsAreScalar | appv2.py:233-237 | every entry decoded from a declared property is a value/units/name record |
| CommonPropertiesFacts.ScalarValueSource | appv2.py:222-230 | without a `value` child the property's own text is kept uncoerced; with one, its text is coerced; a number only comes from a `value` child |
| CommonPropertiesFacts.ComponentsFailIff | appv2.py:243-252 | the mixture fails exactly when some component with both a species link and an amount has an amount text that does not parse |
| CommonPropertiesFacts.ComponentsFirstFailure | appv2.py:243-252 | a failure carries the error of the first such component |
| CommonPropertiesFacts.CompositionKeys | appv2.py:243-249 | the mixture's keys are exactly the preferred keys of components having both a species link and an amount |
| CommonPropertiesFacts.CompositionLastWins | appv2.py:247-252 | each species key holds the amount (0 for an empty text) and units of the last counting component with that key |
| CommonPropertiesFacts.CommonPropertiesShape | appv2.py:211-256 | with no mixture the result is the scalar dictionary; with one, it fails exactly when the mixture fails and otherwise adds it under `initial_composition`, keeping every other key |
| CommonPropertiesFacts.DirectCompositionFound | appv2.py:240 | a direct child property named `initial composition` is found by the deep search |
| CommonPropertiesFacts.CompositionAlsoScalar | appv2.py:217-254 | an unlabelled mixture property appears both as a scalar under its name and as the species map |
| DataGroups.CollectProperties | appv2.py:275-301 | the loop gives the property infos in declaration order, the id-keyed map (a later id replacing) and the id order with repeats kept |
| DataGroups.CollectPoint | appv2.py:307-322 | the loop over a data point's children builds its insertion-ordered dictionary |
| DataGroups.CollectRows | appv2.py:304-326 | the loop keeps the dictionaries of the data points that are not empty, in document order |
| DataGroups.OrderColumns | appv2.py:331-341 | the two reordering loops give the declared displayed columns in id order, then the other displayed columns not yet listed |
| DataGroups.ParseDataGroup | appv2.py:262-355 | one decoded group per `dataGroup` element, with a table and statistics only when a row was kept |
| DataGroups.ParseDataGroups | appv2.py:258-357 | one decoded group per `dataGroup` at any depth, in document order |
| DataGroupFacts.SpeciesColumnNameExamples | appv2.py:284-289 | an illustration of ColumnNameRule on concrete properties: a species-linked column is named `key (units)`, with the parentheses even for empty units |
| DataGroupFacts.ColumnNameRule | appv2.py:280-294 | for every property element: with a species link, preferred key then ` (units)`, even for empty units; otherwise label-or-name, with ` (units)` only when the units are non-empty |
| DataGroupFacts.PlainColumnNameExamples | appv2.py:290-294 | an illustration of ColumnNameRule on concrete properties: otherwise the column is the label, or the name when the label is empty, with ` (units)` only when there are units |
| DataGroupFacts.MapOfKeys | appv2.py:297-298 | an id is in the property map exactly when it is in the id order |
| DataGroupFacts.MapOfLastWins | appv2.py:297 | an id maps to the last declaration with that id |
| DataGroupFacts.MapOfValues | appv2.py:297 | every value of the map is a declared info, filed under its own id |
| DataGroupFacts.PutKeepsInsertionOrder | appv2.py:322 | assigning a key stores the value and appends the key only when it is new, keeping keys distinct and in step with the dictionary |
| DataGroupFacts.PointRowWellFormed | appv2.py:307-322 | a data point's dictionary lists each of its keys once, in first-insertion order |
| DataGroupFacts.PointRowKeys | appv2.py:309-322 | the keys are exactly the column names of children whose tag is a declared id; other children are ignored |
| DataGroupFacts.PointRowLastWins | appv2.py:309-322 | each column holds the coerced text of the last child filling it |
| DataGroupFacts.PointRowEmptyIff | appv2.py:307-324 | a data point's dictionary is empty exactly when no child has a declared tag |
| DataGroupFacts.PointRowUniform | appv2.py:313-322 | when every declared child's coerced text is a fixed function of its column, every key holds that function's value |
| DataGroupFacts.KeptRowsShape | appv2.py:304-326 | at most one row per data point, none empty, and each row's keys are declared column names |
| DataGroupFacts.KeptRowsEmptyIff | appv2.py:324-328 | no row is kept exactly when no data point has a declared child |
| DataGroupFacts.KeptRowsAll | appv2.py:304-326 | when no data point gives an empty dictionary, row `i` is data point `i`'s dictionary |
| DataGroupFacts.AddNewFacts | appv2.py:339-341 | appending the unseen columns keeps the prefix, adds exactly the missing ones, and keeps a distinct list distinct |
| DataGroupFacts.AddNewPresent | appv2.py:339-341 | when every column is already listed, nothing is appended |
| DataGroupFacts.FrameColumnsFacts | appv2.py:329 | the DataFrame's columns are distinct and are exactly the keys of the rows |
| DataGroupFacts.DisplayFacts | appv2.py:331 | the displayed columns are exactly those not starting with `_` |
| DataGroupFacts.DeclaredColumnsFacts | appv2.py:333-337 | the first loop lists exactly the displayed column names of declared ids |
| DataGroupFacts.DeclaredColumnsCount | appv2.py:333-337 | a displayed column is listed once per position of the id order whose id has that column, so repeated ids repeat it |
| DataGroupFacts.DeclaredColumnsAppend | appv2.py:333-337 | the first loop follows the id order: over two runs of ids it lists the first run's columns, then the second's |
| DataGroupFacts.DecodedRowsOver | appv2.py:309-326 | every key of a decoded row is the column name of an id in the id order |
| DataGroupFacts.DisplayedAreDeclared | appv2.py:331-337 | every displayed column is already listed by the first loop |
| DataGroupFacts.SecondLoopAddsNothing | appv2.py:339-341 | on decoded rows the second loop appends nothing |
| DataGroupFacts.FinalColumnsFacts | appv2.py:331-344 | the final columns are row columns, include every displayed one, and follow the declaration order unless nothing is displayed |
| DataGroupFacts.NothingDisplayed | appv2.py:332-337 | with nothing displayed the first loop lists nothing |
| DataGroupFacts.FinalIsDeclaredOrFrame | appv2.py:343-344 | the final columns are the reordered list when it is non-empty, otherwise the frame's own columns |
| DataGroupFacts.FinalWithinRows | appv2.py:331-344 | every final column occurs in some row |
| DataGroupFacts.DisplayedInFinal | appv2.py:331-344 | every row column not starting with `_` is a final column |
| DataGroupFacts.RepeatedIdRepeatsColumn | appv2.py:333-337 | an illustration of DeclaredColumnsCount: two declarations with the same id list the column twice; it is not deduplicated |
| DataGroupFacts.GroupShape | appv2.py:262-326 | the decoded id and label are the element's, the properties are all declared ones, and rows are kept exactly when some data point has a declared child |
| DataGroupFacts.GroupSummary | appv2.py:328-351 | table and statistics exist exactly when a row was kept; then the count, columns and shape describe the table |
| DataGroupFacts.GroupColumns | appv2.py:328-346 | the table's columns are row columns, include every displayed one, and follow declaration order unless nothing is displayed |
| Validator.ValidateStructure | appv2.py:371-395 | `ok` exactly when there is no error; a tree gives its structural errors; an unparsable or unreadable file gives one error |
| Validator.MissingOfMeaning | appv2.py:379-382 | one error per required name that is not a direct child, and no other |
| Validator.StructureErrorsMeaning | appv2.py:379-386 | a required element is reported exactly when missing, the data-group error exactly when there is no data group at any depth, nothing else |
| Validator.MissingOfEmpty | appv2.py:379-382 | no missing-element error exactly when all required names are children |
| Validator.PassesIff | appv2.py:379-388 | a tree passes exactly when the three elements and some data group exist |
| Validator.OnlyDataGroupsMissing | appv2.py:384-386 | with the three elements present and no data group there is exactly one error |
| Registry.RequiredParamsFor | appv2.py:130-132 | a reactor with its own list gets it, any other gets the default list, and every list names a pressure |
| Registry.ReactorsWithoutOwnParams | appv2.py:71-77 | of the reactor kinds, exactly JSR, FR, shock tube and RCM have a list of their own |
| PyText.StripTrimmed | appv2.py:363 | `strip()` leaves a string with no surrounding whitespace unchanged |
| PyText.Strip | appv2.py:363 | `strip()` leaves no whitespace at either end |
| PyText.StripInfix | appv2.py:363 | `strip()` is an infix of the input, and everything dropped before and after it is whitespace |
| PyText.Split | appv1.py:959 | `split('\n')` gives at least one piece and no piece holds a newline |
| PyText.NonBlankKeepsAll | appv1.py:959 | a filter over lines none of which is blank keeps them all |
| PyText.StripEmptyIffBlank | appv1.py:959 | `line.strip()` is empty exactly when the line is whitespace only |
| PyText.JoinSplit | appv1.py:959-960 | joining the pieces of `split('\n')` with newlines gives the text back |
| PyText.SplitJoin | appv1.py:959-960 | splitting joined lines without newlines gives them back |
| PyText.SplitOfFiltered | appv1.py:959-960 | splitting the filtered text gives back the kept lines |
| PyText.NoBlankLine | appv1.py:959-960 | the filtered text has no whitespace-only line |
| PyText.NonBlankLines | appv1.py:959 | the kept lines are input lines whose strip is non-empty |
| PyText.FilterTwice | appv1.py:959-960 | filtering the joined kept lines again keeps every one of them |
| PyText.StripBlankLinesIdempotent | appv1.py:959-960 | filtering twice is filtering once |
| PyText.UnderscoreToSpace | appv1.py:868 | same length, every `_` a space and every other character kept |
| PyText.IntToStringTrimmed | appv1.py:837 | `str` of an int has no surrounding whitespace |
| Draft.ComponentEntry | appv1.py:285-298 | an entry only for a named species and a positive amount; a known species takes the registry identifiers, ignoring a typed CAS; an unknown one takes the typed CAS if any |
| Draft.OptionalParamsFacts | appv1.py:428-462 | the saved dictionary has no repeated key and holds a key exactly when the form gives it an entry, with that entry |
| Draft.CollectSound | appv1.py:428-462 | every collected pair is a listed key with its entry |
| Draft.CollectComplete | appv1.py:428-462 | every listed key with an entry is collected |
| Draft.CollectDistinct | appv1.py:428-462 | distinct keys give distinct pairs |
| Draft.NewYColumn | appv1.py:538-548 | a column only with a name; the label defaults to the name; the "none" choice means no species |
| Draft.NewDataGroup | appv1.py:690-704 | a group only with a name and an id; its columns are the X name then each Y name |
| Draft.GroupColumns | appv1.py:702 | the loop lists the X name followed by the Y names |
| Draft.ValidGroupsSnoc | appv1.py:706 | appending a valid group keeps every group valid |
| Draft.Session.AddComponent | appv1.py:285-298 | appends exactly the entry the rule produces, changes nothing else, keeps the session invariant (groups the save button can produce, no repeated optional key) |
| Draft.Session.SaveOptional | appv1.py:428-462 | rebuilds the dictionary from the form, in form order, changes nothing else |
| Draft.Session.AddColumn | appv1.py:538-548 | appends exactly the column the rule produces, changes nothing else |
| Draft.Session.SaveDataGroup | appv1.py:690-707 | appends the produced group and clears the current columns, or changes nothing |
| Encoder.AddReactorProperties | appv1.py:864-870 | the loop writes one property per positive reactor parameter, in order |
| Encoder.AddOptionalProperties | appv1.py:872-879 | the loop writes one property per optional parameter under one of the four written keys |
| Encoder.AddLinkAttrs | appv1.py:890-898 | the species link attributes are set one identifier after the other |
| Encoder.AddComponents | appv1.py:887-902 | one `component` per entry, in order |
| Encoder.AddCommonProperties | appv1.py:842-902 | the children of `commonProperties` are conditions, reactor parameters, optional parameters, then the mixture |
| Encoder.AddYProperties | appv1.py:920-936 | one declared property per Y column, with a species link when the registry knows the species |
| Encoder.AddDataPoint | appv1.py:940-951 | the X value when the row has it, then the Y values the row has |
| Encoder.AddDataGroup | appv1.py:906-951 | the X property, the Y properties, then one data point per row |
| Encoder.AddDataGroups | appv1.py:905-951 | one `dataGroup` per drafted group, in order |
| Encoder.CreateEnhancedXml | appv1.py:805-960 | the returned text is the pretty-printed tree without blank lines |
| EncoderFacts.BibliographyPresence | appv1.py:828-839 | the bibliography link is written exactly when author and title are non-empty; journal, year and DOI appear only when given |
| EncoderFacts.HeaderTags | appv1.py:812-825 | author, the DOI only if given, version, type, apparatus |
| EncoderFacts.PrologueTags | appv1.py:812-842 | the children before the data groups, in their fixed order |
| EncoderFacts.RootChildren | appv1.py:807-907 | the root's children are the fixed front tags then one `dataGroup` per drafted group, in draft order |
| EncoderFacts.FrontThenGroups | appv1.py:905-907 | the data groups follow the front and are exactly the `dataGroup` children |
| EncoderFacts.EmitFacts | appv1.py:864-879 | a filtered emission writes exactly the images of the accepted items |
| EncoderFacts.ReactorPropertiesFacts | appv1.py:864-870 | exactly the positive reactor parameters are written, one property each |
| EncoderFacts.OptionalPropertiesFacts | appv1.py:873-879 | exactly the four listed optional keys are written; all others are dropped |
| EncoderFacts.WrittenKey | appv1.py:873-879 | a listed key's property is written exactly when a parameter has that key and text |
| EncoderFacts.EmittedKey | appv1.py:873-879 | a listed key's property is written exactly when the form gives that key an entry |
| EncoderFacts.OptionalNamesDistinct | appv1.py:873-879 | when no optional key repeats, no two optional properties are written under the same name |
| EncoderFacts.SessionOptionalNames | appv1.py:873-879 | the optional parameters a valid session saves are each written under a name of their own |
| EncoderFacts.OptionalNames | appv1.py:876-878 | every optional property is named after a listed key with `_` turned into a space |
| EncoderFacts.SameNameSameKey | appv1.py:877 | no two listed keys are written under the same name |
| EncoderFacts.FormWritesRatio | appv1.py:430-431 | the equivalence ratio is written exactly when positive |
| EncoderFacts.FormWritesFuel | appv1.py:432-433 | the fuel is written exactly when named |
| EncoderFacts.FormWritesOxidizer | appv1.py:434-435 | the oxidizer is written exactly when named |
| EncoderFacts.FormWritesDiluent | appv1.py:436-437 | the diluent is written exactly when named |
| EncoderFacts.LinkAttrsFacts | appv1.py:890-898 | a species link carries the preferred key and exactly those of the four identifiers the entry has |
| EncoderFacts.TypedCasLink | appv1.py:295-296 | an unknown species links by its typed CAS number, or by its preferred key alone |
| EncoderFacts.CompositionPropertyShape | appv1.py:882-902 | the mixture property holds one `component` per entry |
| EncoderFacts.CommonChildrenShape | appv1.py:842-902 | every common property holds one `value`, except the mixture, which is last and present only for a non-empty mixture |
| EncoderFacts.ConditionPropertiesShape | appv1.py:846-861 | temperature and pressure are each a property with one `value` child |
| EncoderFacts.ReactorPropertiesShape | appv1.py:864-870 | every reactor parameter property has one `value` child |
| EncoderFacts.OptionalPropertiesShape | appv1.py:873-879 | every optional parameter property has one `value` child |
| EncodedGroups.YCellsFacts | appv1.py:948-951 | at most one Y value per column, exactly for the columns the row has |
| EncodedGroups.YCellsFull | appv1.py:948-951 | a row with every Y column gets one value per column, in order |
| EncodedGroups.YCellsNone | appv1.py:948-951 | a row without Y columns gets no Y value |
| EncodedGroups.DataPointFacts | appv1.py:939-951 | a data point holds the X value first exactly when the row has it, then the Y values |
| EncodedGroups.EmptyRowEmptyPoint | appv1.py:939-951 | a row without any column gives an empty data point, which is still written |
| EncodedGroups.GroupElementFacts | appv1.py:906-951 | id and label are the group's; the properties are X then Y in order; one data point per row |
| EncodedGroups.DeclaredNames | appv1.py:906-936 | a group the save button produced is written with a non-empty id and label, and its property names are its `columns`, in order |
| EncodedGroups.SessionGroups | appv1.py:905-936 | every data group of a valid session is written that way, one per saved group, in order |
| EncodedGroups.YLinkFacts | appv1.py:920-936 | a Y property links its species only when one was chosen and the registry knows it |
| EncodedGroups.YLinkAttrs | appv1.py:932-936 | the link carries the preferred key and the registry's identifiers, the registry winning on a shared key |
| EncodedGroups.EncodedTextClean | appv1.py:953-960 | the returned text has no whitespace-only line, and filtering it again changes nothing |
| RoundTrip.RequiredPresent | appv1.py:812-842 | the written root has `experimentType`, `apparatus` and `commonProperties` |
| RoundTrip.DeepGroups | appv1.py:905-907 | a data group exists at some depth exactly when the draft has one |
| RoundTrip.EncodedStructure | appv2.py:379-386 | the written record passes the gate exactly when the draft has a data group, and otherwise reports only that |
| RoundTrip.MetadataRead | appv2.py:165-181 | the metadata read back is the draft's author (default `Unknown`) and DOI, version 1.0, no dates |
| RoundTrip.AuthorRead | appv1.py:812 | the author read back is the draft's, or `Unknown` |
| RoundTrip.DoiRead | appv1.py:813-814 | the DOI read back is the draft's, or empty |
| RoundTrip.VersionRead | appv1.py:817-819 | the version read back is major 1, minor 0 |
| RoundTrip.VersionNumbers | appv1.py:817-819 | the written version element reads back as major `1` and minor `0` |
| RoundTrip.HeaderAuthor | appv1.py:812 | the header's author is the draft's, or `Unknown` without basic information |
| RoundTrip.FoundInHeader | appv1.py:812-825 | a tag found in the header is what the root's `find` finds |
| RoundTrip.NotAmongRootTags | appv1.py:807-907 | a tag that heads none of the root's children is not found under the root |
| RoundTrip.DatesRead | appv2.py:178-179 | no publication or modification date is read back |
| RoundTrip.TypeRead | appv1.py:822 | the experiment type read back is the draft's, or empty |
| RoundTrip.ApparatusRead | appv1.py:824-825 | the apparatus read back has the reactor as kind (default `JSR`) and an empty `type` attribute |
| RoundTrip.ApparatusOfKind | appv2.py:183-190 | an apparatus holding only a trimmed kind reads back as that kind with an empty `type` attribute |
| RoundTrip.DetailsRead | appv1.py:831-837 | the details read back are the reference's author, journal, title and year text |
| RoundTrip.DetailsAuthor | appv1.py:832 | for any author, the author read back from the details is the reference's author with its surrounding whitespace stripped, as `_get_text` strips it |
| RoundTrip.BibliographyFound | appv1.py:828-830 | with a reference, the root's `find` of the link gives the written link |
| RoundTrip.LinkChildrenRead | appv1.py:830-839 | the link's details, no description, and the reference DOI are read back |
| RoundTrip.BibliographyRead | appv2.py:192-209 | no bibliography without author and title; otherwise no description, the reference DOI and its details |
| SimpleEncoder.AddComponents | appv2.py:845-854 | one `component` per entry, in order |
| SimpleEncoder.AddCommonProperties | appv2.py:825-855 | temperature and pressure by name and units, then the mixture |
| SimpleEncoder.AddColumnProperties | appv2.py:861-863 | one declaration per column, id `x{i+1}` |
| SimpleEncoder.AddDataPoint | appv2.py:867-870 | a value under `x{i+1}` for each column the row has |
| SimpleEncoder.AddDataGroup | appv2.py:858-870 | the column declarations, then one data point per row |
| SimpleEncoder.AddDataGroups | appv2.py:857-870 | one `dataGroup` per drafted group, in order |
| SimpleEncoder.CreateEnhancedXml | appv2.py:808-878 | the returned text is the pretty-printed tree without blank lines |
| SimpleEncoderFacts.NatToStringInjective | appv2.py:863 | distinct numbers are written differently |
| SimpleEncoderFacts.ColumnIdInjective | appv2.py:863 | distinct columns get distinct ids |
| SimpleEncoderFacts.PointCellsFacts | appv2.py:868-870 | at most one value per column, exactly for the columns the row has |
| SimpleEncoderFacts.FindColumn | appv2.py:868-870 | column `i`'s value is found under its id exactly when the row has the column |
| SimpleEncoderFacts.FullRow | appv2.py:868-870 | a row with every column gets one value per column, in order |
| SimpleEncoderFacts.GroupElementFacts | appv2.py:858-870 | only the id attribute; the declarations; one data point per row |
| SimpleEncoderFacts.RootChildren | appv2.py:810-858 | author, the DOI only if given, type, apparatus, common properties, then one group per drafted group |
| SimpleEncoderFacts.HeaderWithoutVersion | appv2.py:815-822 | the header is the first version's without its version element |
| SimpleEncoderFacts.LinkAttrsCut | appv2.py:848-852 | the species link is the first version's cut to the preferred key and the CAS number |
| SimpleEncoderFacts.EncodedTextClean | appv2.py:872-878 | the returned text has no whitespace-only line, and filtering it again changes nothing |
| SimpleRoundTrip.ColumnPropertyRead | appv2.py:862-863 | a declaration reads back as id `x{i+1}`, named and column-named after its column, with no label, units or species |
| SimpleRoundTrip.ColumnsRead | appv2.py:861-863 | the declarations read back one per column, in column order |
| SimpleRoundTrip.ColumnIdsLast | appv2.py:861-863 | no two declarations share an id |
| SimpleRoundTrip.ColumnMapNames | appv2.py:861-863 | each column's id is declared and maps to that column |
| SimpleRoundTrip.ColumnMapKeys | appv2.py:861-863 | the property map knows only the generated ids |
| SimpleRoundTrip.PointKeysSound | appv2.py:866-870 | a column read back from a written data point is one of the row's columns |
| SimpleRoundTrip.PointKeysComplete | appv2.py:866-870 | every column the row has is read back |
| SimpleRoundTrip.PointValuesRead | appv2.py:866-870 | each column read back holds the decoder's coercion of the written cell text |
| SimpleRoundTrip.PointRead | appv2.py:866-870 | a written data point reads back as exactly the row's columns with their coerced cell texts |
| SimpleRoundTrip.GroupHeadRead | appv2.py:858-863 | a written group reads back with its id, no label and one property per column |
| SimpleRoundTrip.GroupRowsRead | appv2.py:866-870 | when every row has a column, each row reads back in order as what it wrote |

## Left out

- Streamlit. Widgets, `st.session_state` plumbing, reruns and messages are not modelled; the draft is an explicit input and the session lists are the fields of `Draft.Session`.
- `logger.info` after each decoded group (appv2.py:353). Logging has no effect on the decoded record.
- `ET.parse`, `ET.tostring`, `minidom.toprettyxml`. These are library calls; parsing happens before the model starts (`Validator.Document`) and printing is the parameter `pretty`.
- Encoder.CreateEnhancedXml, SimpleEncoder.CreateEnhancedXml: always return text, because `pretty` is total. In the source, printing can fail (appv1.py:954-955, appv2.py:873-874). This happens when an X or Y id from the form (appv1.py:518, 535) is empty or not an XML name, such as `x 1`, because ids become element tags (appv1.py:945, 951). It also happens when any text holds a control character. The caller then reports that generation failed (appv1.py:795-796). The model does not capture this failure.
- The read-back lemmas (`RoundTrip`, `SimpleRoundTrip`) decode the encoded element tree, not the printed, filtered and re-parsed text. Printing and re-parsing can change what is read. A cell whose text is empty is printed as `<x1 />`, so it reads back as a missing text (`None`) rather than the coercion of `""`. A reference text holding a blank inner line loses that line to the blank-line filter (appv1.py:959).
- `float` of strings and `str` of floats. These are the parameters `parse` and `fmt`; float syntax is not modelled. `str` of an int is modelled exactly.
- `ET.SubElement`. It mutates a shared tree. The model's methods append children to local sequences instead, so element aliasing is not modelled.
- Dictionary iteration order of the decoded common properties. That dictionary is a `map`, so the key order Python would show is lost. The data-point dictionary keeps its order, in `Row.order`.
- The amount `0` of a missing amount text. In the source this is an `int` `0`; in the model it is `0.0`.
- The DataFrame. It is reduced to its column list and rows: first-seen column order and column selection are modelled; the dtypes and the index are not.
- The first version's draft `load`, display, plotting, analysis and export functions. They are not part of the codec.
- `UnitConverter` and the mole-fraction sum warning. Both are floating-point arithmetic.
- The second version's draft forms (appv2.py:603-757). They are not modelled. The reduced encoder takes its draft (`SimpleEncoder.TableDraft`) as an input value.
- Reactor parameters, description and reference in the second version. The reduced encoder ignores them, as the source does.
- `y_info.get('label', y_info['name'])`. The model reads the label directly: the form always stores a label, so the default is never taken.
- EncodedGroups.YLinkAttrs: states the preferred key only when the registry entry has none, because no registry entry in the tables has a `preferredKey`.
- RoundTrip.MetadataRead, RoundTrip.AuthorRead, RoundTrip.DoiRead, RoundTrip.TypeRead, RoundTrip.ApparatusRead, RoundTrip.BibliographyRead, RoundTrip.DetailsRead, RoundTrip.LinkChildrenRead: require the draft's texts to have no surrounding whitespace, because the decoder strips them.
- SimpleRoundTrip.GroupRowsRead: requires every row to have at least one column, because a row without any column is written as an empty data point, which the decoder drops.
- The first version's data groups are not read back through the decoder. Their written structure is stated (`EncodedGroups`), but not their decoded rows.
- The `'temperature' in conditions` and `'pressure' in conditions` tests. The model's draft holds the conditions whole or not at all (`Option<Conditions>`), because the save button (appv1.py:323-332) always writes both together.
