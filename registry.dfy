/**
 * The static lookup tables of the application: reactor kinds, known species
 * with their identifiers, unit vocabularies, required parameters per reactor,
 * experiment types and the option lists of the draft forms.
 */
module Registry {

  const ReactorTypes: map<string, string> := map[
    "JSR" := "Jet Stirred Reactor",
    "FR" := "Flow Reactor",
    "PFR" := "Plug Flow Reactor",
    "CSTR" := "Continuously Stirred Tank Reactor",
    "shock_tube" := "Shock Tube",
    "RCM" := "Rapid Compression Machine",
    "flat_flame" := "Flat Flame Burner",
    "counterflow" := "Counterflow Burner",
    "spherical_bomb" := "Spherical Bomb",
    "engine" := "Engine"
  ]

  /** The identifier attributes a known species carries. */
  function SpeciesIds(cas: string, chemName: string, inchi: string, smiles: string): map<string, string> {
    map["CAS" := cas, "chemName" := chemName, "InChI" := inchi, "SMILES" := smiles]
  }

  const CommonSpecies: map<string, map<string, string>> := map[
    "CH4" := SpeciesIds("74-82-8", "methane", "1S/CH4/h1H4", "C"),
    "O2" := SpeciesIds("7782-44-7", "oxygen", "1S/O2/c1-2", "O=O"),
    "N2" := SpeciesIds("7727-37-9", "nitrogen", "1S/N2/c1-2", "N#N"),
    "CO" := SpeciesIds("630-08-0", "carbon monoxide", "1S/CO/c1-2", "[C-]#[O+]"),
    "CO2" := SpeciesIds("124-38-9", "carbon dioxide", "1S/CO2/c2-1-3", "C(=O)=O"),
    "H2O" := SpeciesIds("7732-18-5", "water", "1S/H2O/h1H2", "O"),
    "H2" := SpeciesIds("1333-74-0", "hydrogen", "1S/H2/h1H", "[H][H]"),
    "NH3" := SpeciesIds("7664-41-7", "ammonia", "1S/H3N/h1H3", "N"),
    "NO" := SpeciesIds("10102-43-9", "nitric oxide", "1S/NO/c1-2", "[N]=O"),
    "NO2" := SpeciesIds("10102-44-0", "nitrogen dioxide", "1S/NO2/c2-1-3", "N(=O)[O]"),
    "N2O" := SpeciesIds("10024-97-2", "nitrous oxide", "1S/N2O/c1-2-3", "N#[N+][O-]"),
    "Ar" := SpeciesIds("7440-37-1", "argon", "1S/Ar", "[Ar]"),
    "He" := SpeciesIds("7440-59-7", "helium", "1S/He", "[He]")
  ]

  /** The four identifier keys a species link may carry besides its preferred key. */
  const IdentifierKeys: seq<string> := ["CAS", "chemName", "InChI", "SMILES"]

  const Units: map<string, seq<string>> := map[
    "temperature" := ["K", "C", "F", "R"],
    "pressure" := ["atm", "bar", "Pa", "kPa", "MPa", "Torr", "psi"],
    "composition" := ["mole_fraction", "ppm", "ppb", "mass_fraction", "percent"],
    "time" := ["s", "ms", "us", "ns", "min", "h"],
    "flow_rate" := ["sccm", "slpm", "mol/s", "kg/s"],
    "volume" := ["cm3", "m3", "L", "mL"],
    "length" := ["m", "cm", "mm", "inch", "ft"]
  ]

  const DefaultParams: seq<string> := ["temperature", "pressure", "composition"]

  const RequiredParams: map<string, seq<string>> := map[
    "JSR" := ["temperature", "pressure", "residence_time", "volume"],
    "FR" := ["temperature", "pressure", "flow_rate", "length", "diameter"],
    "shock_tube" := ["temperature", "pressure", "ignition_delay"],
    "RCM" := ["compressed_temperature", "compressed_pressure", "ignition_delay"],
    "default" := DefaultParams
  ]

  const ExperimentTypes: seq<string> := [
    "ignition_delay", "flame_speed", "laminar_flame_speed",
    "species_profile", "temperature_profile", "pressure_profile"
  ]

  const IgnitionCriteria: seq<string> := ["OH*", "CH*", "pressure_rise", "dp/dt_max", "temperature_rise"]

  const IgnitionTypes: map<string, string> := map[
    "reflected_shock" := "反射激波",
    "incident_shock" := "入射激波",
    "compression" := "压缩点火",
    "spark" := "电火花点火"
  ]

  const DiagnosticMethods: map<string, string> := map[
    "pressure_transducer" := "压力传感器",
    "OH_emission" := "OH*发射光谱",
    "CH_emission" := "CH*发射光谱",
    "laser_absorption" := "激光吸收"
  ]

  const UncertaintyTypes: seq<string> := ["absolute", "relative", "percentage"]

  const OptionalParams: seq<string> := ["equivalence_ratio", "phi", "fuel", "oxidizer", "bath_gas", "diluent"]

  /**
   * `REQUIRED_PARAMS.get(reactor, REQUIRED_PARAMS.get('default', []))`: the
   * reactor's own list when it has one, the default list otherwise.
   */
  function RequiredParamsFor(reactor: string): (r: seq<string>)
    ensures reactor in RequiredParams ==> r == RequiredParams[reactor]
    ensures reactor !in RequiredParams ==> r == DefaultParams
    ensures "pressure" in r || "compressed_pressure" in r
  {
    if reactor in RequiredParams then RequiredParams[reactor] else RequiredParams["default"]
  }

  /** Of the ten reactor kinds, only four have a parameter list of their own. */
  lemma {:induction false} ReactorsWithoutOwnParams(reactor: string)
    requires reactor in ReactorTypes
    ensures reactor !in {"JSR", "FR", "shock_tube", "RCM"} <==> RequiredParamsFor(reactor) == DefaultParams
  {
    if reactor in {"JSR", "FR", "shock_tube", "RCM"} {
      assert RequiredParams[reactor] != DefaultParams by {
        assert RequiredParams[reactor][2] != DefaultParams[2];
      }
    }
  }

}
