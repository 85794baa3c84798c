/**
 * The draft an experiment record is encoded from, and the rules of the
 * forms that assemble it: composition entries, optional parameters, Y-column
 * definitions and data groups. The form state lives in a `Session` whose
 * methods are the form actions.
 */
module Draft {
  import opened Wrappers
  import opened Registry

  datatype Reference = Reference(author: string, title: string, journal: string, year: int, doi: string)

  datatype BasicInfo = BasicInfo(
    author: string, doi: string, expType: string, reactor: string,
    description: string, reference: Reference)

  datatype Quantity = Quantity(value: real, units: string)

  /** A composition entry: species, amount and units, plus the identifiers known for the species. */
  datatype CompEntry = CompEntry(species: string, amount: real, units: string, ids: map<string, string>)

  /** The saved experimental conditions; the reactor parameters keep their insertion order. */
  datatype Conditions = Conditions(
    temperature: Quantity, pressure: Quantity,
    composition: seq<CompEntry>, reactorParams: seq<(string, real)>)

  /** A value of the optional-parameter dictionary. */
  datatype OptValue =
    | OptReal(r: real)
    | OptText(s: string)
    | OptList(items: seq<string>)
    | OptUncertainty(kind: string, amount: real)

  /** The X axis of a data group. */
  datatype Axis = Axis(name: string, unit: string, labelText: string, id: string)

  /** A Y column of a data group, with its optional species. */
  datatype YColumn = YColumn(name: string, unit: string, species: Option<string>, labelText: string, id: string)

  /** A table cell of a drafted data group. */
  datatype Cell = FloatCell(r: real) | IntCell(i: int) | TextCell(s: string)

  datatype DataGroupDraft = DataGroupDraft(
    id: string, name: string, xAxis: Axis, yAxes: seq<YColumn>,
    columns: seq<string>, data: seq<map<string, Cell>>)

  /** Everything the encoder reads; a part not yet saved is `None` (an empty dictionary in the source). */
  datatype Draft = Draft(
    basicInfo: Option<BasicInfo>, conditions: Option<Conditions>,
    optional: seq<(string, OptValue)>, dataGroups: seq<DataGroupDraft>)

  /** The "none" choice of the select boxes. */
  const NoChoice := "无"

  // ---------------------------------------------------------------- composition entries

  /**
   * The entry the add-species button produces: none unless the species is
   * named and the amount positive; a known species takes its registry
   * identifiers (a typed CAS number is ignored), an unknown one the typed CAS
   * number when there is one.
   */
  function ComponentEntry(species: string, amount: real, units: string, cas: string): (r: Option<CompEntry>)
    ensures r.Some? <==> species != "" && amount > 0.0
    ensures r.Some? ==> r.value.species == species && r.value.amount == amount && r.value.units == units
    ensures r.Some? && species in CommonSpecies ==> r.value.ids == CommonSpecies[species]
    ensures r.Some? && species !in CommonSpecies ==>
              r.value.ids == (if cas != "" then map["CAS" := cas] else map[])
  {
    if species != "" && amount > 0.0 then
      var ids := if species in CommonSpecies then CommonSpecies[species]
                 else if cas != "" then map["CAS" := cas] else map[];
      Some(CompEntry(species, amount, units, ids))
    else None
  }

  // ---------------------------------------------------------------- optional parameters

  /** What the optional-parameter form holds when it is saved; `None` is the "none" choice or a widget not shown. */
  datatype OptionalInput = OptionalInput(
    equivRatio: real, fuel: string, oxidizer: string, diluent: string,
    ignitionCriterion: Option<string>, ignitionType: Option<string>,
    diagnostics: seq<string>, uncertainty: Option<(string, real)>, comments: string,
    reflectedT: Option<real>, reflectedP: Option<real>)

  /** The keys of the optional-parameter dictionary, in the order the form inserts them. */
  const OptionalKeys: seq<string> := [
    "equivalence_ratio", "fuel", "oxidizer", "diluent", "ignition_criterion", "ignition_type",
    "diagnostics", "uncertainty", "comments", "reflected_shock_temperature", "reflected_shock_pressure"]

  /** The entry the form stores under `key`, if any: a number only when positive, a text only when not empty. */
  function OptionalEntry(input: OptionalInput, key: string): Option<OptValue> {
    if key == "equivalence_ratio" then (if input.equivRatio > 0.0 then Some(OptReal(input.equivRatio)) else None)
    else if key == "fuel" then (if input.fuel != "" then Some(OptText(input.fuel)) else None)
    else if key == "oxidizer" then (if input.oxidizer != "" then Some(OptText(input.oxidizer)) else None)
    else if key == "diluent" then (if input.diluent != "" then Some(OptText(input.diluent)) else None)
    else if key == "ignition_criterion" then
      (match input.ignitionCriterion case Some(c) => Some(OptText(c)) case None => None)
    else if key == "ignition_type" then
      (match input.ignitionType case Some(t) => Some(OptText(t)) case None => None)
    else if key == "diagnostics" then (if input.diagnostics != [] then Some(OptList(input.diagnostics)) else None)
    else if key == "uncertainty" then
      (match input.uncertainty case Some(u) => Some(OptUncertainty(u.0, u.1)) case None => None)
    else if key == "comments" then (if input.comments != "" then Some(OptText(input.comments)) else None)
    else if key == "reflected_shock_temperature" then
      (match input.reflectedT case Some(t) => if t > 0.0 then Some(OptReal(t)) else None case None => None)
    else if key == "reflected_shock_pressure" then
      (match input.reflectedP case Some(p) => if p > 0.0 then Some(OptReal(p)) else None case None => None)
    else None
  }

  /** The entry of each key, as a function. */
  function EntryOf(input: OptionalInput): string -> Option<OptValue> {
    k => OptionalEntry(input, k)
  }

  /** The pairs of each key of `keys` that has an entry, in order. */
  function Collect<V>(entry: string -> Option<V>, keys: seq<string>): seq<(string, V)> {
    if keys == [] then []
    else
      var k := keys[|keys| - 1];
      Collect(entry, keys[..|keys| - 1]) + (match entry(k) case Some(v) => [(k, v)] case None => [])
  }

  /** The dictionary the optional-parameter form saves. */
  function OptionalParamsOf(input: OptionalInput): seq<(string, OptValue)> {
    Collect(EntryOf(input), OptionalKeys)
  }

  /** No key occurs twice among the pairs. */
  predicate DistinctKeys<V>(pairs: seq<(string, V)>) {
    forall i, j :: 0 <= i < j < |pairs| ==> pairs[i].0 != pairs[j].0
  }

  /** Every collected pair is a key of `keys` with its entry. */
  lemma {:induction false} CollectSound<V>(entry: string -> Option<V>, keys: seq<string>)
    ensures forall i :: 0 <= i < |Collect(entry, keys)| ==>
              Collect(entry, keys)[i].0 in keys && entry(Collect(entry, keys)[i].0) == Some(Collect(entry, keys)[i].1)
  {
    if keys != [] {
      var n := |keys| - 1;
      CollectSound(entry, keys[..n]);
      var r0 := Collect(entry, keys[..n]);
      var r := Collect(entry, keys);
      var k := keys[n];
      var last := if entry(k).Some? then [(k, entry(k).value)] else [];
      assert r == r0 + last;
      assert keys == keys[..n] + [k];
      forall i | 0 <= i < |r| ensures r[i].0 in keys && entry(r[i].0) == Some(r[i].1) {
        if i < |r0| {
          assert r[i] == r0[i];
          assert r0[i].0 in keys[..n];
        }
      }
    }
  }

  /** Some pair of `pairs` has key `k`. */
  predicate HasKey<V>(pairs: seq<(string, V)>, k: string) {
    exists i :: 0 <= i < |pairs| && pairs[i].0 == k
  }

  /** Every key of `keys` that has an entry is collected. */
  lemma {:induction false} CollectComplete<V>(entry: string -> Option<V>, keys: seq<string>)
    ensures forall k :: k in keys && entry(k).Some? ==> HasKey(Collect(entry, keys), k)
  {
    if keys != [] {
      var n := |keys| - 1;
      var front := keys[..n];
      CollectComplete(entry, front);
      var r0 := Collect(entry, front);
      var r := Collect(entry, keys);
      var k := keys[n];
      var last := if entry(k).Some? then [(k, entry(k).value)] else [];
      assert r == r0 + last;
      assert keys == keys[..n] + [k];
      forall k' | k' in keys && entry(k').Some? ensures HasKey(r, k') {
        if k' in front {
          var i :| 0 <= i < |r0| && r0[i].0 == k';
          assert r[i] == r0[i];
        } else {
          assert r[|r| - 1].0 == k';
        }
      }
    }
  }

  /** Distinct keys are collected without repeats. */
  lemma {:induction false} CollectDistinct<V>(entry: string -> Option<V>, keys: seq<string>)
    requires forall i, j :: 0 <= i < j < |keys| ==> keys[i] != keys[j]
    ensures DistinctKeys(Collect(entry, keys))
  {
    if keys != [] {
      var n := |keys| - 1;
      var front := keys[..n];
      assert forall i :: 0 <= i < n ==> front[i] == keys[i];
      CollectDistinct(entry, front);
      CollectSound(entry, front);
      var r0 := Collect(entry, front);
      var r := Collect(entry, keys);
      var k := keys[n];
      var last := if entry(k).Some? then [(k, entry(k).value)] else [];
      assert r == r0 + last;
      assert keys == keys[..n] + [k];
      assert keys[n] !in front;
      forall i, j | 0 <= i < j < |r| ensures r[i].0 != r[j].0 {
        if j < |r0| {
          assert r[i] == r0[i] && r[j] == r0[j];
        } else {
          assert r[i] == r0[i];
          assert r0[i].0 in front;
        }
      }
    }
  }

  /**
   * The saved dictionary never repeats a key, and holds a key exactly when
   * the form produces an entry for it, with that entry.
   */
  lemma OptionalParamsFacts(input: OptionalInput)
    ensures DistinctKeys(OptionalParamsOf(input))
    ensures forall k :: k in OptionalKeys ==> (HasKey(OptionalParamsOf(input), k) <==> OptionalEntry(input, k).Some?)
    ensures var r := OptionalParamsOf(input);
            forall i :: 0 <= i < |r| ==> r[i].0 in OptionalKeys && OptionalEntry(input, r[i].0) == Some(r[i].1)
  {
    CollectSound(EntryOf(input), OptionalKeys);
    CollectComplete(EntryOf(input), OptionalKeys);
    CollectDistinct(EntryOf(input), OptionalKeys);
  }

  // ---------------------------------------------------------------- data-group columns

  /**
   * The Y column the add-column button produces: none without a name; the
   * label defaults to the name and the "none" species choice means no species.
   */
  function NewYColumn(name: string, unit: string, species: string, labelText: string, id: string): (r: Option<YColumn>)
    ensures r.Some? <==> name != ""
    ensures r.Some? ==> r.value.name == name && r.value.unit == unit && r.value.id == id
    ensures r.Some? ==> r.value.labelText == (if labelText != "" then labelText else name) && r.value.labelText != ""
    ensures r.Some? ==> (r.value.species.None? <==> species == NoChoice)
    ensures r.Some? && r.value.species.Some? ==> r.value.species.value == species
  {
    if name == "" then None
    else Some(YColumn(name, unit, if species != NoChoice then Some(species) else None,
                      if labelText != "" then labelText else name, id))
  }

  /** The names of the Y columns, in order. */
  function YNames(ys: seq<YColumn>): (r: seq<string>)
    ensures |r| == |ys|
    ensures forall i :: 0 <= i < |ys| ==> r[i] == ys[i].name
  {
    if ys == [] then [] else YNames(ys[..|ys| - 1]) + [ys[|ys| - 1].name]
  }

  /**
   * The data group the save button produces: none without a name and an id;
   * its columns are the X axis name followed by the Y column names.
   */
  function NewDataGroup(name: string, id: string, x: Axis, ys: seq<YColumn>, data: seq<map<string, Cell>>): (r: Option<DataGroupDraft>)
    ensures r.Some? <==> name != "" && id != ""
    ensures r.Some? ==> r.value.xAxis == x && r.value.yAxes == ys && r.value.data == data
    ensures r.Some? ==> |r.value.columns| == |ys| + 1 && r.value.columns[0] == x.name
                        && forall i :: 0 <= i < |ys| ==> r.value.columns[i + 1] == ys[i].name
  {
    if name != "" && id != "" then Some(DataGroupDraft(id, name, x, ys, [x.name] + YNames(ys), data)) else None
  }

  /** A data group the form can have produced: named, with an id, its columns the X name then the Y names. */
  predicate ValidGroup(g: DataGroupDraft) {
    g.id != "" && g.name != "" && g.columns == [g.xAxis.name] + YNames(g.yAxes)
  }

  /** Appending a valid group to valid groups keeps them all valid. */
  lemma ValidGroupsSnoc(gs: seq<DataGroupDraft>, g: DataGroupDraft)
    requires forall i :: 0 <= i < |gs| ==> ValidGroup(gs[i])
    requires ValidGroup(g)
    ensures forall i :: 0 <= i < |gs + [g]| ==> ValidGroup((gs + [g])[i])
  {
  }

  /** The loop that lists a data group's columns: the X axis name, then each Y column's name. */
  method GroupColumns(x: Axis, ys: seq<YColumn>) returns (columns: seq<string>)
    ensures columns == [x.name] + YNames(ys)
  {
    columns := [x.name];
    var k := 0;
    while k < |ys|
      invariant 0 <= k <= |ys|
      invariant columns == [x.name] + YNames(ys[..k])
    {
      assert ys[..k + 1][..k] == ys[..k];
      columns := columns + [ys[k].name];
      k := k + 1;
    }
    assert ys[..k] == ys;
  }

  // ---------------------------------------------------------------- the form state

  /** The form state the draft is assembled in. */
  class Session {
    var compositionList: seq<CompEntry>
    var optionalParams: seq<(string, OptValue)>
    var currentColumns: seq<YColumn>
    var dataGroups: seq<DataGroupDraft>

    /**
     * What the encoder relies on: every saved data group is one the save
     * button can produce, and the optional parameters, a dictionary in the
     * source, repeat no key.
     */
    predicate Valid()
      reads this
    {
      (forall i :: 0 <= i < |dataGroups| ==> ValidGroup(dataGroups[i]))
      && DistinctKeys(optionalParams)
    }

    /**
     * The draft the encoder reads: the basic information and conditions saved
     * in the record, with this session's optional parameters and data groups.
     */
    function DraftOf(info: Option<BasicInfo>, conditions: Option<Conditions>): Draft
      reads this
    {
      Draft(info, conditions, optionalParams, dataGroups)
    }

    constructor ()
      ensures Valid()
      ensures compositionList == [] && optionalParams == [] && currentColumns == [] && dataGroups == []
    {
      compositionList, optionalParams, currentColumns, dataGroups := [], [], [], [];
    }

    /** The add-species button (the lines building `comp_entry`). */
    method AddComponent(species: string, amount: real, units: string, cas: string)
      requires Valid()
      modifies this
      ensures Valid()
      ensures compositionList == old(compositionList)
                                 + (match ComponentEntry(species, amount, units, cas) case Some(e) => [e] case None => [])
      ensures optionalParams == old(optionalParams) && currentColumns == old(currentColumns) && dataGroups == old(dataGroups)
    {
      if species != "" && amount > 0.0 {
        var ids: map<string, string>;
        if species in CommonSpecies {
          ids := CommonSpecies[species];
        } else if cas != "" {
          ids := map["CAS" := cas];
        } else {
          ids := map[];
        }
        compositionList := compositionList + [CompEntry(species, amount, units, ids)];
      }
    }

    /** The save button of the optional-parameter form: the dictionary is rebuilt from the form. */
    method SaveOptional(input: OptionalInput)
      requires Valid()
      modifies this
      ensures Valid()
      ensures optionalParams == OptionalParamsOf(input)
      ensures compositionList == old(compositionList) && currentColumns == old(currentColumns) && dataGroups == old(dataGroups)
    {
      var optional: seq<(string, OptValue)> := [];
      var i := 0;
      while i < |OptionalKeys|
        invariant 0 <= i <= |OptionalKeys|
        invariant optional == Collect(EntryOf(input), OptionalKeys[..i])
      {
        assert OptionalKeys[..i + 1][..i] == OptionalKeys[..i];
        var key := OptionalKeys[i];
        var entry := OptionalEntry(input, key);
        if entry.Some? {
          optional := optional + [(key, entry.value)];
        }
        i := i + 1;
      }
      assert OptionalKeys[..i] == OptionalKeys;
      OptionalParamsFacts(input);
      optionalParams := optional;
    }

    /** The add-column button. */
    method AddColumn(name: string, unit: string, species: string, labelText: string, id: string)
      requires Valid()
      modifies this
      ensures Valid()
      ensures currentColumns == old(currentColumns)
                                + (match NewYColumn(name, unit, species, labelText, id) case Some(c) => [c] case None => [])
      ensures compositionList == old(compositionList) && optionalParams == old(optionalParams) && dataGroups == old(dataGroups)
    {
      if name != "" {
        var column := YColumn(name, unit, if species != NoChoice then Some(species) else None,
                              if labelText != "" then labelText else name, id);
        currentColumns := currentColumns + [column];
      }
    }

    /** The save button of a data group: the current columns become its Y axes and are cleared. */
    method SaveDataGroup(name: string, id: string, x: Axis, data: seq<map<string, Cell>>)
      requires Valid()
      modifies this
      ensures Valid()
      ensures NewDataGroup(name, id, x, old(currentColumns), data).Some? ==>
                dataGroups == old(dataGroups) + [NewDataGroup(name, id, x, old(currentColumns), data).value]
                && currentColumns == []
      ensures NewDataGroup(name, id, x, old(currentColumns), data).None? ==>
                dataGroups == old(dataGroups) && currentColumns == old(currentColumns)
      ensures compositionList == old(compositionList) && optionalParams == old(optionalParams)
    {
      if name != "" && id != "" {
        var columns := GroupColumns(x, currentColumns);
        var datagroup := DataGroupDraft(id, name, x, currentColumns, columns, data);
        assert ValidGroup(datagroup);
        ValidGroupsSnoc(dataGroups, datagroup);
        dataGroups := dataGroups + [datagroup];
        currentColumns := [];
      }
    }
  }
}
