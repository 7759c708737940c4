/**
 The rule-based entry normaliser of fauldier/basic_mapping.py: the ordered
 name rules, the ecoinvent 3.10 renames, unit abbreviations, the chain of
 eleven substance converters, and the category, location, type and database
 passes. The passes that overwrite a column of the sheet in place are methods
 on an `array<Entry>`; each is specified by a function on one row.
 */
module BasicMapping {
  import opened Wrappers
  import opened Text
  import opened CanonicalNames

  /** The six uncertainty columns of the output table. */
  datatype Uncertainty = Uncertainty(
    distribution: Option<real>, loc: Option<real>, scale: Option<real>,
    shape: Option<real>, minimum: Option<real>, maximum: Option<real>)

  const NoUncertainty := Uncertainty(None, None, None, None, None, None)

  /**
   One row of an inventory sheet. The first six fields are spreadsheet
   columns; the others are the columns the pipeline adds. `None` stands for
   an empty cell (pandas' NaN).
   */
  datatype Entry = Entry(
    flowName: Option<string>,     // FLOW NAME
    marker: Option<string>,       // the unnamed marker column: PRODUCTS, INPUTS, ...
    origin: Option<string>,       // ORIGIN
    rawUnit: string,              // UNIT
    quantity: real,               // QUANTITY
    description: Option<string>,  // DESCRIPTION
    name: string,
    amount: real,
    unit: string,
    categories: Option<string>,
    location: Option<string>,
    kind: string,                 // the `type` column
    database: Option<string>,
    uncertainty: Uncertainty)

  // ---------------------------------------------------------------------
  // Name rules

  /** The seven name rules, in the order in which they are tried. */
  datatype NameRule = Electricity | ProcessHeat | NaturalGasFeed | WasteWaterFlow | Co2Fossil | Co2Biogenic | Cooling

  const NameRules: seq<NameRule> := [Electricity, ProcessHeat, NaturalGasFeed, WasteWaterFlow, Co2Fossil, Co2Biogenic, Cooling]

  const CoolingExclusion := "Water, cooling, unspecified natural origin"

  /** The look-ahead `(?!.*Water, cooling, unspecified natural origin\b)` fails at position `j`. */
  predicate CoolingExcludedAt(name: string, j: int)
    requires 0 <= j <= |name|
  {
    exists k | j <= k <= |name| - |CoolingExclusion| ::
      && Occurs(Lower(name), Lower(CoolingExclusion), k)
      && (k + |CoolingExclusion| == |name| || !IsWordChar(name[k + |CoolingExclusion|]))
      && (forall m | j <= m < k :: name[m] != '\n')
  }

  /** `#cooling(?!.*Water, cooling, unspecified natural origin\b)`, case-insensitive. */
  predicate CoolingMatches(name: string) {
    exists i | 0 <= i <= |name| - 8 :: Occurs(Lower(name), "#cooling", i) && !CoolingExcludedAt(name, i + 8)
  }

  predicate RuleMatches(rule: NameRule, name: string) {
    match rule
    case Electricity => ContainsCI(name, "#electricity")
    case ProcessHeat =>
      ContainsCI(name, "process heat") || ContainsCI(name, "heating") || ContainsCI(name, "industrial heat")
    case NaturalGasFeed => ContainsCI(name, "#natural gas")
    case WasteWaterFlow => ContainsCI(name, "waste water")
    case Co2Fossil => ContainsCI(name, "CO2, fossil")
    case Co2Biogenic => ContainsCI(name, "CO2, biogenic")
    case Cooling => CoolingMatches(name)
  }

  function RuleChoice(rule: NameRule): string {
    match rule
    case Electricity => ElectricityName
    case ProcessHeat => HeatName
    case NaturalGasFeed => NaturalGasName
    case WasteWaterFlow => WastewaterName
    case Co2Fossil => Co2FossilName
    case Co2Biogenic => Co2BiogenicName
    case Cooling => CoolingName
  }

  /** `np.select` over the rules with the name itself as default: the first matching rule decides. */
  function SelectName(rules: seq<NameRule>, name: string): (r: string)
    ensures r == name || exists k | 0 <= k < |rules| :: r == RuleChoice(rules[k])
  {
    if rules == [] then name
    else if RuleMatches(rules[0], name) then RuleChoice(rules[0])
    else SelectName(rules[1..], name)
  }

  /** Reference: the position of the first rule that matches, or `|rules|` when none does. */
  function FirstMatch(rules: seq<NameRule>, name: string): (k: nat)
    ensures k <= |rules|
    ensures forall j | 0 <= j < k :: !RuleMatches(rules[j], name)
    ensures k < |rules| ==> RuleMatches(rules[k], name)
  {
    if rules == [] then 0
    else if RuleMatches(rules[0], name) then 0
    else 1 + FirstMatch(rules[1..], name)
  }

  /** `np.select` gives the choice of the first matching rule, and the name itself when no rule matches. */
  lemma {:induction false} SelectIsFirstMatch(rules: seq<NameRule>, name: string)
    ensures SelectName(rules, name) ==
      (if FirstMatch(rules, name) < |rules| then RuleChoice(rules[FirstMatch(rules, name)]) else name)
  {
    if rules != [] && !RuleMatches(rules[0], name) {
      SelectIsFirstMatch(rules[1..], name);
    }
  }

  /** The canonical name `map_common_names` gives to one row's name. */
  function CommonName(name: string): string {
    SelectName(NameRules, name)
  }

  lemma AbsentLower(s: string, p: string, k: nat, cs: set<char>)
    requires k < |p| && LowerChar(p[k]) in cs && LacksLowerIn(s, cs)
    ensures !ContainsCI(s, p)
  {
    AbsentChar(Lower(s), Lower(p), k);
  }

  lemma AbsentLowerPair(s: string, p: string, k: nat)
    requires k + 1 < |p| && LacksLowerPair(s, LowerChar(p[k]), LowerChar(p[k + 1]))
    ensures !ContainsCI(s, p)
  {
    AbsentPair(Lower(s), Lower(p), k);
  }

  lemma CoolingNeedsHash(name: string)
    requires CoolingMatches(name)
    ensures ContainsCI(name, "#cooling")
  {
    var i :| 0 <= i <= |name| - 8 && Occurs(Lower(name), "#cooling", i) && !CoolingExcludedAt(name, i + 8);
    assert Lower("#cooling") == "#cooling";
    assert Occurs(Lower(name), Lower("#cooling"), i);
  }

  /** A name without '#', '2' and the heat and waste-water phrases matches no rule. */
  lemma MatchesNoRule(s: string, cs: set<char>)
    requires '#' in cs && '2' in cs && LacksLowerIn(s, cs)
    requires !ContainsCI(s, "process heat") && !ContainsCI(s, "heating") && !ContainsCI(s, "industrial heat")
    requires !ContainsCI(s, "waste water")
    ensures forall b: NameRule :: !RuleMatches(b, s)
  {
    AbsentLower(s, "#electricity", 0, cs);
    AbsentLower(s, "#natural gas", 0, cs);
    AbsentLower(s, "CO2, fossil", 2, cs);
    AbsentLower(s, "CO2, biogenic", 2, cs);
    AbsentLower(s, "#cooling", 0, cs);
    if CoolingMatches(s) { CoolingNeedsHash(s); }
  }

  /** Neither 'h' nor 'w': no heat and no waste-water phrase. */
  lemma LacksHeatAndWaste(s: string, cs: set<char>)
    requires 'h' in cs && 'w' in cs && LacksLowerIn(s, cs)
    ensures !ContainsCI(s, "process heat") && !ContainsCI(s, "heating") && !ContainsCI(s, "industrial heat")
    ensures !ContainsCI(s, "waste water")
  {
    AbsentLower(s, "process heat", 8, cs);
    AbsentLower(s, "heating", 0, cs);
    AbsentLower(s, "industrial heat", 11, cs);
    AbsentLower(s, "waste water", 0, cs);
  }

  /** ElectricityName split into short pieces. */
  lemma ElectricityNameMatchesNoRule()
    ensures forall b: NameRule :: !RuleMatches(b, ElectricityName)
  {
    var s, cs := ElectricityName, {'#', '2', 'h', 'w'};
    ElectricityLacks();
    LacksHeatAndWaste(s, cs);
    MatchesNoRule(s, cs);
  }

  lemma HeatNameMatchesNoRule()
    ensures forall b: NameRule :: !RuleMatches(b, HeatName)
  {
    var s, cs := HeatName, {'#', '2', 'w', 'p', 'g'};
    HeatLacks();
    AbsentLower(s, "process heat", 0, cs);
    AbsentLower(s, "heating", 6, cs);
    AbsentLowerPair(s, "industrial heat", 7);
    AbsentLower(s, "waste water", 0, cs);
    MatchesNoRule(s, cs);
  }

  lemma NaturalGasNameMatchesNoRule()
    ensures forall b: NameRule :: !RuleMatches(b, NaturalGasName)
  {
    var s, cs := NaturalGasName, {'#', '2', 'w', 'c', 'd'};
    NaturalGasLacks();
    AbsentLower(s, "process heat", 3, cs);
    AbsentLowerPair(s, "heating", 0);
    AbsentLower(s, "industrial heat", 2, cs);
    AbsentLower(s, "waste water", 0, cs);
    MatchesNoRule(s, cs);
  }

  lemma WastewaterNameMatchesNoRule()
    ensures forall b: NameRule :: !RuleMatches(b, WastewaterName)
  {
    var s, cs := WastewaterName, {'#', '2', 'h'};
    WastewaterLacks();
    AbsentLower(s, "process heat", 8, cs);
    AbsentLower(s, "heating", 0, cs);
    AbsentLower(s, "industrial heat", 11, cs);
    AbsentLowerPair(s, "waste water", 4);
    MatchesNoRule(s, cs);
  }

  lemma Co2FossilNameMatchesNoRule()
    ensures forall b: NameRule :: !RuleMatches(b, Co2FossilName)
  {
    var s, cs := Co2FossilName, {'#', '2', 'h', 'w'};
    Co2FossilLacks();
    LacksHeatAndWaste(s, cs);
    MatchesNoRule(s, cs);
  }

  lemma Co2BiogenicNameMatchesNoRule()
    ensures forall b: NameRule :: !RuleMatches(b, Co2BiogenicName)
  {
    var s, cs := Co2BiogenicName, {'#', '2', 'h', 'w'};
    Co2BiogenicLacks();
    LacksHeatAndWaste(s, cs);
    MatchesNoRule(s, cs);
  }

  lemma CoolingNameMatchesNoRule()
    ensures forall b: NameRule :: !RuleMatches(b, CoolingName)
  {
    var s, cs := CoolingName, {'#', '2', 'h', 'w'};
    CoolingLacks();
    LacksHeatAndWaste(s, cs);
    MatchesNoRule(s, cs);
  }

  /** No canonical name matches any rule. */
  lemma ChoiceMatchesNoRule(a: NameRule)
    ensures forall b: NameRule :: !RuleMatches(b, RuleChoice(a))
  {
    match a
    case Electricity => ElectricityNameMatchesNoRule();
    case ProcessHeat => HeatNameMatchesNoRule();
    case NaturalGasFeed => NaturalGasNameMatchesNoRule();
    case WasteWaterFlow => WastewaterNameMatchesNoRule();
    case Co2Fossil => Co2FossilNameMatchesNoRule();
    case Co2Biogenic => Co2BiogenicNameMatchesNoRule();
    case Cooling => CoolingNameMatchesNoRule();
  }

  /** A name no rule matches is kept as it is. */
  lemma {:induction false} SelectKeepsUnmatched(rules: seq<NameRule>, name: string)
    requires forall k | 0 <= k < |rules| :: !RuleMatches(rules[k], name)
    ensures SelectName(rules, name) == name
  {
    if rules != [] {
      assert !RuleMatches(rules[0], name);
      SelectKeepsUnmatched(rules[1..], name);
    }
  }

  /** `map_common_names` is idempotent: a canonical name is a fixed point. */
  lemma CommonNameIdempotent(name: string)
    ensures CommonName(CommonName(name)) == CommonName(name)
  {
    SelectIsFirstMatch(NameRules, name);
    var k := FirstMatch(NameRules, name);
    if k < |NameRules| {
      ChoiceMatchesNoRule(NameRules[k]);
    }
    SelectKeepsUnmatched(NameRules, CommonName(name));
  }

  /** A name matching both the electricity and the heat rule gets the electricity name, the earlier rule's. */
  lemma CommonNameEarlierRuleWins(name: string)
    requires RuleMatches(Electricity, name) && RuleMatches(ProcessHeat, name)
    ensures CommonName(name) == ElectricityName
  {
    assert NameRules[0] == Electricity;
    SelectIsFirstMatch(NameRules, name);
  }

  /** Overwrites the `name` column of every row with `f` of it. */
  method RenameAll(t: array<Entry>, f: string -> string)
    modifies t
    ensures forall i | 0 <= i < t.Length :: t[i] == old(t[i]).(name := f(old(t[i]).name))
  {
    for i := 0 to t.Length
      invariant forall j | 0 <= j < i :: t[j] == old(t[j]).(name := f(old(t[j]).name))
      invariant forall j | i <= j < t.Length :: t[j] == old(t[j])
    {
      t[i] := t[i].(name := f(t[i].name));
    }
  }

  /** Overwrites the `name` column with the canonical names (`map_common_names`). */
  method MapCommonNames(t: array<Entry>)
    modifies t
    ensures forall i | 0 <= i < t.Length :: t[i] == old(t[i]).(name := CommonName(old(t[i]).name))
  {
    RenameAll(t, CommonName);
  }

  // ---------------------------------------------------------------------
  // ecoinvent 3.10 names

  /** The literal substitutions of `ecoinvent_3_10_names`, in order. */
  function Ecoinvent310Name(name: string): string {
    var a := Replace(name, "waste steel", "scrap steel");
    var b := Replace(a, "waste aluminium", "scrap aluminium");
    var c := Replace(b, "waste copper", "scrap copper");
    Replace(c, AceticAcid, AceticAcid + AceticAcidSuffix)
  }

  /** A name holding none of the four patterns is left as it is. */
  lemma Ecoinvent310Unchanged(name: string)
    requires !Contains(name, "waste steel") && !Contains(name, "waste aluminium")
    requires !Contains(name, "waste copper") && !Contains(name, AceticAcid)
    ensures Ecoinvent310Name(name) == name
  {
    ReplaceAbsent(name, "waste steel", "scrap steel");
    ReplaceAbsent(name, "waste aluminium", "scrap aluminium");
    ReplaceAbsent(name, "waste copper", "scrap copper");
    ReplaceAbsent(name, AceticAcid, AceticAcid + AceticAcidSuffix);
  }

  /** A name without "e " holds none of the three "waste ..." patterns. */
  lemma NoWastePattern(s: string)
    requires LacksPair(s, 'e', ' ')
    ensures !Contains(s, "waste steel") && !Contains(s, "waste aluminium") && !Contains(s, "waste copper")
  {
    AbsentPair(s, "waste steel", 4);
    AbsentPair(s, "waste aluminium", 4);
    AbsentPair(s, "waste copper", 4);
  }

  /** The first pass appends the suffix to the acetic-acid name. */
  lemma Ecoinvent310AceticAcid()
    ensures Ecoinvent310Name(AceticAcid) == AceticAcid + AceticAcidSuffix
  {
    AceticAcidLacks();
    NoWastePattern(AceticAcid);
    ReplaceAbsent(AceticAcid, "waste steel", "scrap steel");
    ReplaceAbsent(AceticAcid, "waste aluminium", "scrap aluminium");
    ReplaceAbsent(AceticAcid, "waste copper", "scrap copper");
    assert !Contains("", AceticAcid);
    ReplaceLeading(AceticAcid, "", AceticAcid + AceticAcidSuffix);
    assert AceticAcid + "" == AceticAcid;
  }

  /** The acetic-acid replacement contains its own pattern, so a second pass appends the suffix again. */
  lemma Ecoinvent310NotIdempotent()
    ensures Ecoinvent310Name(Ecoinvent310Name(AceticAcid)) == AceticAcid + AceticAcidSuffix + AceticAcidSuffix
    ensures Ecoinvent310Name(Ecoinvent310Name(AceticAcid)) != Ecoinvent310Name(AceticAcid)
  {
    var x := AceticAcid + AceticAcidSuffix;
    Ecoinvent310AceticAcid();
    AceticAcidLacks();
    NoWastePattern(x);
    ReplaceAbsent(x, "waste steel", "scrap steel");
    ReplaceAbsent(x, "waste aluminium", "scrap aluminium");
    ReplaceAbsent(x, "waste copper", "scrap copper");
    AbsentChar(AceticAcidSuffix, AceticAcid, 0);
    ReplaceLeading(AceticAcid, AceticAcidSuffix, x);
  }

  /** Overwrites the `name` column with its ecoinvent 3.10 form (`ecoinvent_3_10_names`). */
  method Ecoinvent310Names(t: array<Entry>)
    modifies t
    ensures forall i | 0 <= i < t.Length :: t[i] == old(t[i]).(name := Ecoinvent310Name(old(t[i]).name))
  {
    for i := 0 to t.Length
      invariant forall j | 0 <= j < i :: t[j] == old(t[j]).(name := Ecoinvent310Name(old(t[j]).name))
      invariant forall j | i <= j < t.Length :: t[j] == old(t[j])
    {
      t[i] := t[i].(name := Ecoinvent310Name(t[i].name));
    }
  }

  // ---------------------------------------------------------------------
  // Unit abbreviations

  /** The nine abbreviations `map_unit` knows. */
  const UnitNames: map<string, string> := map[
    "kg" := "kilogram", "t" := "ton", "kWh" := "kilowatt hour", "m3" := "cubic meter",
    "m2" := "square meter", "MJ" := "megajoule", "unit" := "unit", "ml" := "milliliter", "l" := "liter"]

  /** `map_unit`: an abbreviation becomes its full name; any other string is returned unchanged. */
  function MapUnit(unit: string): (r: string)
    ensures unit in UnitNames ==> r == UnitNames[unit]
    ensures unit !in UnitNames ==> r == unit
  {
    if unit == "kg" then "kilogram"
    else if unit == "t" then "ton"
    else if unit == "kWh" then "kilowatt hour"
    else if unit == "m3" then "cubic meter"
    else if unit == "m2" then "square meter"
    else if unit == "MJ" then "megajoule"
    else if unit == "unit" then "unit"
    else if unit == "ml" then "milliliter"
    else if unit == "l" then "liter"
    else unit
  }

  /** No full name is a different abbreviation, so mapping twice is mapping once. */
  lemma MapUnitIdempotent(unit: string)
    ensures MapUnit(MapUnit(unit)) == MapUnit(unit)
  {
    var r := MapUnit(unit);
    if unit in UnitNames {
      assert r in UnitNames ==> r == "unit";
    }
  }

  // ---------------------------------------------------------------------
  // Unit converters

  /** The eleven `check_and_convert_*` functions. Six solvents share one shape; methanol's differs and stands alone. */
  datatype Converter = Heat | NaturalGas | WasteWater | UltrapureWater | Methanol | Solvent(kind: SolventKind)

  datatype SolventKind = Ethanol | Argon | Nitrogen | Toluene | Acetone | Hexane

  /** The order in which `unit_conversion` applies them. */
  const ConverterChain: seq<Converter> :=
    [Heat, NaturalGas, WasteWater, UltrapureWater, Solvent(Ethanol), Methanol,
     Solvent(Argon), Solvent(Nitrogen), Solvent(Toluene), Solvent(Acetone), Solvent(Hexane)]

  /** Densities (kg/m3) and the molar mass of water at 293.15 K, which the source obtains from the `thermo` library. */
  datatype Thermo = Thermo(
    water: real, waterMolarMass: real, ethanol: real, methanol: real, argon: real,
    nitrogen: real, toluene: real, acetone: real, hexane: real)

  predicate ValidThermo(th: Thermo) {
    th.water > 0.0 && th.waterMolarMass > 0.0 && th.ethanol > 0.0 && th.methanol > 0.0 && th.argon > 0.0
    && th.nitrogen > 0.0 && th.toluene > 0.0 && th.acetone > 0.0 && th.hexane > 0.0
  }

  /** The whole word each solvent converter looks for, case-insensitively. */
  function SolventWord(k: SolventKind): string {
    match k
    case Ethanol => "ethanol"
    case Argon => "argon"
    case Nitrogen => "nitrogen"
    case Toluene => "toluene"
    case Acetone => "acetone"
    case Hexane => "hexane"
  }

  function Density(k: SolventKind, th: Thermo): real {
    match k
    case Ethanol => th.ethanol
    case Argon => th.argon
    case Nitrogen => th.nitrogen
    case Toluene => th.toluene
    case Acetone => th.acetone
    case Hexane => th.hexane
  }

  /** The substance test of each converter on the row's name. */
  predicate Targets(c: Converter, name: string) {
    match c
    case Heat => Contains(Lower(name), "heat") || Contains(Lower(name), "heating") || Contains(Lower(name), "cooling")
    case NaturalGas => Contains(Lower(name), "natural gas")
    case WasteWater => Contains(Lower(name), "waste water") || Contains(Lower(name), "wastewater")
    case UltrapureWater => Contains(Lower(name), "market for water, ultrapure")
    case Methanol => ContainsWord(name, "methanol", true)
    case Solvent(k) => ContainsWord(name, SolventWord(k), true)
  }

  /** The units each converter converts from. */
  function SourceUnits(c: Converter): set<string> {
    match c
    case Heat => {"kilowatt hour"}
    case NaturalGas => {"kilogram"}
    case WasteWater => {"kilogram"}
    case UltrapureWater => {"liter", "milliliter", "mmol"}
    case _ => {"milliliter", "liter"}
  }

  /** The unit each converter converts to. */
  function TargetUnit(c: Converter): string {
    match c
    case Heat => "megajoule"
    case NaturalGas => "cubic meter"
    case WasteWater => "cubic meter"
    case _ => "kilogram"
  }

  /** The factor by which a converter multiplies the amount, for each source unit. */
  function Factor(c: Converter, unit: string, th: Thermo): real {
    match c
    case Heat => 3.6
    case NaturalGas => 1.0 / 0.735
    case WasteWater => 1.0 / 998.0
    case UltrapureWater =>
      if unit == "liter" then th.water / 1000.0
      else if unit == "milliliter" then th.water / 1000000.0
      else th.waterMolarMass / 1000.0
    case Methanol => if unit == "milliliter" then th.methanol / 1000000.0 else th.methanol / 1000.0
    case Solvent(k) => if unit == "milliliter" then Density(k, th) / 1000000.0 else Density(k, th) / 1000.0
  }

  /** Converter `c` changes the row. */
  predicate Fires(c: Converter, e: Entry) {
    Targets(c, e.name) && e.unit in SourceUnits(c)
  }

  /** `check_and_convert_heat` */
  function ConvertHeat(e: Entry): (r: Entry)
    ensures !Fires(Heat, e) ==> r == e
    ensures Fires(Heat, e) ==> r == e.(unit := "megajoule", amount := e.amount * 3.6)
  {
    if Targets(Heat, e.name) && e.unit == "kilowatt hour" then e.(unit := "megajoule", amount := e.amount * 3.6) else e
  }

  /** `check_and_convert_natural_gas` */
  function ConvertNaturalGas(e: Entry): (r: Entry)
    ensures !Fires(NaturalGas, e) ==> r == e
    ensures Fires(NaturalGas, e) ==> r == e.(unit := "cubic meter", amount := e.amount * (1.0 / 0.735))
  {
    if Targets(NaturalGas, e.name) && e.unit == "kilogram" then e.(unit := "cubic meter", amount := e.amount / 0.735) else e
  }

  /** `check_and_convert_waste_water` */
  function ConvertWasteWater(e: Entry): (r: Entry)
    ensures !Fires(WasteWater, e) ==> r == e
    ensures Fires(WasteWater, e) ==> r == e.(unit := "cubic meter", amount := e.amount * (1.0 / 998.0))
  {
    if Targets(WasteWater, e.name) && e.unit == "kilogram" then e.(unit := "cubic meter", amount := e.amount / 998.0) else e
  }

  /** `check_and_convert_water`: three independent `if`s, liter, then milliliter, then mmol. */
  function ConvertWater(e: Entry, th: Thermo): (r: Entry)
    ensures !Fires(UltrapureWater, e) ==> r == e
    ensures Fires(UltrapureWater, e) ==> r == e.(unit := "kilogram", amount := e.amount * Factor(UltrapureWater, e.unit, th))
  {
    if !Targets(UltrapureWater, e.name) then e
    else
      var a := if e.unit == "liter" then e.(unit := "kilogram", amount := e.amount / 1000.0 * th.water) else e;
      var b := if a.unit == "milliliter" then a.(unit := "kilogram", amount := a.amount / 1000000.0 * th.water) else a;
      if b.unit == "mmol" then b.(unit := "kilogram", amount := b.amount / 1000.0 * th.waterMolarMass) else b
  }

  /**
   `check_and_convert_methanol`. Its milliliter branch reads `conversion_ethanol`,
   which that function never binds, and raises.
   */
  function ConvertMethanol(e: Entry, th: Thermo): (r: Result<Entry>)
    ensures r.Err? <==> Targets(Methanol, e.name) && e.unit == "milliliter"
    ensures r.Err? ==> r.error == NameError
    ensures r.Ok? && !Fires(Methanol, e) ==> r.value == e
    ensures r.Ok? && Fires(Methanol, e) ==> r.value == e.(unit := "kilogram", amount := e.amount * (th.methanol / 1000.0))
  {
    if !Targets(Methanol, e.name) then Ok(e)
    else if e.unit == "milliliter" then Err(NameError)
    else if e.unit == "liter" then Ok(e.(unit := "kilogram", amount := e.amount / 1000.0 * th.methanol))
    else Ok(e)
  }

  /** The six solvent converters: milliliter, then liter, each scaled by the density. */
  function ConvertSolvent(k: SolventKind, e: Entry, th: Thermo): (r: Entry)
    ensures !Fires(Solvent(k), e) ==> r == e
    ensures Fires(Solvent(k), e) ==> r == e.(unit := "kilogram", amount := e.amount * Factor(Solvent(k), e.unit, th))
  {
    if !Targets(Solvent(k), e.name) then e
    else
      var rho := Density(k, th);
      var a := if e.unit == "milliliter" then e.(unit := "kilogram", amount := e.amount / 1000000.0 * rho) else e;
      if a.unit == "liter" then a.(unit := "kilogram", amount := a.amount / 1000.0 * rho) else a
  }

  /** One `check_and_convert_*` on one row; only methanol's can raise. */
  function Convert(c: Converter, e: Entry, th: Thermo): (r: Result<Entry>)
    ensures r.Err? <==> c == Methanol && Targets(c, e.name) && e.unit == "milliliter"
    ensures r.Err? ==> r.error == NameError
  {
    match c
    case Heat => Ok(ConvertHeat(e))
    case NaturalGas => Ok(ConvertNaturalGas(e))
    case WasteWater => Ok(ConvertWasteWater(e))
    case UltrapureWater => Ok(ConvertWater(e, th))
    case Methanol => ConvertMethanol(e, th)
    case Solvent(k) => Ok(ConvertSolvent(k, e, th))
  }

  /** A converter that does not fire leaves the row as it is. */
  lemma ConvertNoOp(c: Converter, e: Entry, th: Thermo)
    requires Convert(c, e, th).Ok? && !Fires(c, e)
    ensures Convert(c, e, th).value == e
  {
  }

  /** A converter that fires sets unit and amount together: the target unit, and the amount times the factor. */
  lemma ConvertFires(c: Converter, e: Entry, th: Thermo)
    requires Convert(c, e, th).Ok? && Fires(c, e)
    ensures Convert(c, e, th).value == e.(unit := TargetUnit(c), amount := e.amount * Factor(c, e.unit, th))
  {
    if c == Methanol {
      assert e.unit == "liter";
    }
  }

  /** Applies converters in order, stopping at the first that raises. */
  function ConvertThrough(cs: seq<Converter>, e: Entry, th: Thermo): Result<Entry> {
    if cs == [] then Ok(e)
    else
      match Convert(cs[0], e, th)
      case Err(x) => Err(x)
      case Ok(e1) => ConvertThrough(cs[1..], e1, th)
  }

  /** Reference: apply only the first converter that fires on the original row. */
  function FirstFiring(cs: seq<Converter>, e: Entry, th: Thermo): Result<Entry> {
    if cs == [] then Ok(e)
    else if Fires(cs[0], e) || Convert(cs[0], e, th).Err? then Convert(cs[0], e, th)
    else FirstFiring(cs[1..], e, th)
  }

  /** No converter's output unit is a source unit of a later one. */
  predicate OutputsNotReconverted(cs: seq<Converter>) {
    forall i, j | 0 <= i < j < |cs| :: TargetUnit(cs[i]) !in SourceUnits(cs[j])
  }

  lemma ChainOutputsNotReconverted()
    ensures OutputsNotReconverted(ConverterChain)
  {
  }

  lemma {:induction false} NoneFires(cs: seq<Converter>, e: Entry, th: Thermo)
    requires forall j | 0 <= j < |cs| :: e.unit !in SourceUnits(cs[j])
    ensures ConvertThrough(cs, e, th) == Ok(e)
  {
    if cs != [] {
      assert Convert(cs[0], e, th) == Ok(e);
      NoneFires(cs[1..], e, th);
    }
  }

  /** When outputs are never reconverted, the chain changes a row by at most one converter: the first that fires. */
  lemma {:induction false} ChainIsFirstFiring(cs: seq<Converter>, e: Entry, th: Thermo)
    requires OutputsNotReconverted(cs)
    ensures ConvertThrough(cs, e, th) == FirstFiring(cs, e, th)
  {
    if cs != [] {
      var r := Convert(cs[0], e, th);
      if r.Ok? {
        if Fires(cs[0], e) {
          NoneFires(cs[1..], r.value, th);
        } else {
          ChainIsFirstFiring(cs[1..], e, th);
        }
      }
    }
  }

  /** The chain never changes the name, and a row it changes is changed in unit and amount together. */
  lemma {:induction false} FirstFiringKeepsName(cs: seq<Converter>, e: Entry, th: Thermo)
    ensures FirstFiring(cs, e, th).Ok? ==>
      var v := FirstFiring(cs, e, th).value;
      v == e || (v == e.(unit := v.unit, amount := v.amount) && v.unit != e.unit)
  {
    if cs != [] && !(Fires(cs[0], e) || Convert(cs[0], e, th).Err?) {
      FirstFiringKeepsName(cs[1..], e, th);
    } else if cs != [] && Fires(cs[0], e) && Convert(cs[0], e, th).Ok? {
      assert e.unit in SourceUnits(cs[0]);
      assert TargetUnit(cs[0]) !in SourceUnits(cs[0]);
    }
  }

  /** The unit `unit_conversion` gives one row, with the 'chemical factory' default applied last. */
  function UnitConversionRow(e: Entry, th: Thermo): Result<Entry> {
    match ConvertThrough(ConverterChain, e, th)
    case Err(x) => Err(x)
    case Ok(v) => Ok(if ContainsCI(v.name, ChemicalFactoryName) then v.(unit := "unit") else v)
  }

  /** Scenario: a heat row in kilowatt hours becomes megajoules, ×3.6. */
  lemma HeatInKilowattHours(e: Entry, th: Thermo)
    requires Targets(Heat, e.name) && e.unit == "kilowatt hour"
    ensures ConvertThrough(ConverterChain, e, th) == Ok(e.(unit := "megajoule", amount := e.amount * 3.6))
  {
    var cs := ConverterChain;
    var v := e.(unit := "megajoule", amount := e.amount * 3.6);
    assert Convert(Heat, e, th) == Ok(v);
    NoneFires(cs[1..], v, th);
  }

  /** Scenario: natural gas in kilograms becomes cubic meters, ÷0.735. */
  lemma NaturalGasInKilograms(e: Entry, th: Thermo)
    requires Targets(NaturalGas, e.name) && e.unit == "kilogram"
    ensures ConvertThrough(ConverterChain, e, th) == Ok(e.(unit := "cubic meter", amount := e.amount / 0.735))
  {
    var cs := ConverterChain;
    var v := e.(unit := "cubic meter", amount := e.amount / 0.735);
    assert Convert(Heat, e, th) == Ok(e);
    assert Convert(NaturalGas, e, th) == Ok(v);
    NoneFires(cs[2..], v, th);
    assert ConvertThrough(cs[1..], e, th) == ConvertThrough(cs[2..], v, th);
  }

  /** The methanol milliliter case raises instead of converting (unless an earlier converter fired). */
  lemma MethanolMilliliterRaises(e: Entry, th: Thermo)
    requires Targets(Methanol, e.name) && e.unit == "milliliter"
    requires !Targets(UltrapureWater, e.name) && !Targets(Solvent(Ethanol), e.name)
    ensures ConvertThrough(ConverterChain, e, th) == Err(NameError)
  {
    var cs := ConverterChain;
    assert Convert(Methanol, e, th) == Err(NameError);
    assert ConvertThrough(cs[5..], e, th) == Err(NameError);
    assert Convert(Solvent(Ethanol), e, th) == Ok(e);
    assert ConvertThrough(cs[4..], e, th) == Err(NameError);
    assert Convert(UltrapureWater, e, th) == Ok(e);
    assert ConvertThrough(cs[3..], e, th) == Err(NameError);
    assert Convert(WasteWater, e, th) == Ok(e);
    assert ConvertThrough(cs[2..], e, th) == Err(NameError);
    assert Convert(NaturalGas, e, th) == Ok(e);
    assert ConvertThrough(cs[1..], e, th) == Err(NameError);
    assert Convert(Heat, e, th) == Ok(e);
  }

  /** The whole-word ethanol test never fires on "methanol". */
  lemma MethanolIsNotEthanol()
    ensures !Targets(Solvent(Ethanol), "methanol")
  {
    var s := "methanol";
    forall i | 0 <= i <= |s| - 7 ensures !WordAt(s, "ethanol", i, true) {
      if i == 1 { assert IsWordChar(s[0]); }
      else { assert i == 0; assert Lower(s[0..7]) != Lower("ethanol") by { assert Lower(s[0..7])[0] == 'm'; } }
    }
  }

  /** `unit_conversion`: eleven passes over the whole table, then the 'chemical factory' default. */
  method UnitConversion(rows: seq<Entry>, th: Thermo) returns (r: Result<seq<Entry>>)
    ensures r.Err? <==> exists i | 0 <= i < |rows| :: UnitConversionRow(rows[i], th).Err?
    ensures r.Err? ==> r.error == NameError
    ensures r.Ok? ==> |r.value| == |rows| && forall i | 0 <= i < |rows| :: Ok(r.value[i]) == UnitConversionRow(rows[i], th)
  {
    var table := rows;
    for k := 0 to |ConverterChain|
      invariant |table| == |rows|
      invariant forall i | 0 <= i < |rows| :: ConvertThrough(ConverterChain[..k], rows[i], th) == Ok(table[i])
    {
      var c := ConverterChain[k];
      var next: seq<Entry> := [];
      for i := 0 to |table|
        invariant |next| == i
        invariant forall j | 0 <= j < i :: Convert(c, table[j], th) == Ok(next[j])
      {
        var x := Convert(c, table[i], th);
        if x.Err? {
          ConvertThroughAppend(ConverterChain[..k], [c], rows[i], th);
          assert ConverterChain[..k] + [c] == ConverterChain[..k + 1];
          ConvertThroughAppend(ConverterChain[..k + 1], ConverterChain[k + 1..], rows[i], th);
          assert ConverterChain[..k + 1] + ConverterChain[k + 1..] == ConverterChain;
          return Err(x.error);
        }
        next := next + [x.value];
      }
      forall i | 0 <= i < |rows| ensures ConvertThrough(ConverterChain[..k + 1], rows[i], th) == Ok(next[i]) {
        ConvertThroughAppend(ConverterChain[..k], [c], rows[i], th);
        assert ConverterChain[..k] + [c] == ConverterChain[..k + 1];
      }
      table := next;
    }
    assert ConverterChain[..|ConverterChain|] == ConverterChain;
    var out: seq<Entry> := [];
    for i := 0 to |table|
      invariant |out| == i
      invariant forall j | 0 <= j < i :: Ok(out[j]) == UnitConversionRow(rows[j], th)
    {
      var v := table[i];
      out := out + [if ContainsCI(v.name, ChemicalFactoryName) then v.(unit := "unit") else v];
    }
    r := Ok(out);
  }

  lemma {:induction false} ConvertThroughAppend(a: seq<Converter>, b: seq<Converter>, e: Entry, th: Thermo)
    ensures ConvertThrough(a + b, e, th) ==
      match ConvertThrough(a, e, th) case Err(x) => Err(x) case Ok(v) => ConvertThrough(b, v, th)
  {
    if a == [] {
      assert a + b == b;
    } else {
      assert (a + b)[0] == a[0];
      assert (a + b)[1..] == a[1..] + b;
      match Convert(a[0], e, th)
      case Err(x) =>
      case Ok(v) => ConvertThroughAppend(a[1..], b, v, th);
    }
  }

  // ---------------------------------------------------------------------
  // Categories, location, type, database

  predicate IsCo2Name(name: string) {
    ContainsCI(name, Co2FossilName) || ContainsCI(name, Co2BiogenicName)
  }

  /** `set_category_to_air`: the two CO2 names get categories 'air'; every other row keeps its categories. */
  method SetCategoryToAir(t: array<Entry>)
    modifies t
    ensures forall i | 0 <= i < t.Length ::
      t[i] == if IsCo2Name(old(t[i]).name) then old(t[i]).(categories := Some("air")) else old(t[i])
  {
    for i := 0 to t.Length
      invariant forall j | 0 <= j < i ::
        t[j] == if IsCo2Name(old(t[j]).name) then old(t[j]).(categories := Some("air")) else old(t[j])
      invariant forall j | i <= j < t.Length :: t[j] == old(t[j])
    {
      if IsCo2Name(t[i].name) {
        t[i] := t[i].(categories := Some("air"));
      }
    }
  }

  const CompartmentWords: seq<string> := ["water", "air", "natural", "soil", "inventory", "economic"]

  /** `\b(?:water|air|natural|soil|inventory|economic)\b`, case-sensitive, finds a match in the origin. */
  predicate NamesCompartment(origin: Option<string>) {
    origin.Some? && exists k | 0 <= k < |CompartmentWords| :: ContainsWord(origin.value, CompartmentWords[k], false)
  }

  /** `set_category_from_location`: a compartment-naming origin becomes the categories, whole. */
  method SetCategoryFromLocation(t: array<Entry>)
    modifies t
    ensures forall i | 0 <= i < t.Length ::
      t[i] == if NamesCompartment(old(t[i]).origin) then old(t[i]).(categories := old(t[i]).origin) else old(t[i])
  {
    for i := 0 to t.Length
      invariant forall j | 0 <= j < i ::
        t[j] == if NamesCompartment(old(t[j]).origin) then old(t[j]).(categories := old(t[j]).origin) else old(t[j])
      invariant forall j | i <= j < t.Length :: t[j] == old(t[j])
    {
      if NamesCompartment(t[i].origin) {
        t[i] := t[i].(categories := t[i].origin);
      }
    }
  }

  /** The location `set_location` gives one row. */
  function ResolvedLocation(e: Entry): string {
    var fromOrigin := if e.origin == Some("EUR") || e.origin == Some("EU") then Some("RER") else e.location;
    var filled := if fromOrigin.None? || fromOrigin == Some("") then "RER" else fromOrigin.value;
    if e.name == NaturalGasName || e.name == WastewaterName then "Europe without Switzerland"
    else if e.name == CoolingName || e.name == ChemicalFactoryName then "GLO"
    else filled
  }

  /** After `set_location` no location is empty or missing, and EU/EUR origins and blanks resolve to RER unless overridden. */
  lemma ResolvedLocationRules(e: Entry)
    ensures ResolvedLocation(e) != ""
    ensures e.name == NaturalGasName || e.name == WastewaterName ==> ResolvedLocation(e) == "Europe without Switzerland"
    ensures e.name == CoolingName || e.name == ChemicalFactoryName ==> ResolvedLocation(e) == "GLO"
    ensures e.name !in {NaturalGasName, WastewaterName, CoolingName, ChemicalFactoryName} ==>
      ResolvedLocation(e) == (if e.origin in {Some("EU"), Some("EUR")} || e.location in {None, Some("")} then "RER" else e.location.value)
  {
  }

  /** `set_location` */
  method SetLocation(t: array<Entry>)
    modifies t
    ensures forall i | 0 <= i < t.Length :: t[i] == old(t[i]).(location := Some(ResolvedLocation(old(t[i]))))
  {
    for i := 0 to t.Length
      invariant forall j | 0 <= j < i :: t[j] == old(t[j]).(location := Some(ResolvedLocation(old(t[j]))))
      invariant forall j | i <= j < t.Length :: t[j] == old(t[j])
    {
      t[i] := t[i].(location := Some(ResolvedLocation(t[i])));
    }
  }

  /** `str(categories)`, as `astype(str)` renders it. */
  function CategoriesText(categories: Option<string>): string {
    match categories
    case None => "None"
    case Some(c) => c
  }

  predicate IsBiosphereCategory(categories: Option<string>) {
    var text := CategoriesText(categories);
    Contains(text, "water") || Contains(text, "air") || Contains(text, "natural") || Contains(text, "soil")
  }

  predicate IsProductRow(e: Entry) {
    e.marker.Some? && ContainsCI(e.marker.value, "PRODUCTS")
  }

  /** The type `set_type` gives one row: production first, then biosphere, else technosphere. */
  function EntryType(e: Entry): (r: string)
    ensures r in {"production", "biosphere", "technosphere"}
    ensures r == "production" <==> IsProductRow(e)
    ensures r == "biosphere" <==> !IsProductRow(e) && IsBiosphereCategory(e.categories)
  {
    if IsProductRow(e) then "production"
    else if IsBiosphereCategory(e.categories) then "biosphere"
    else "technosphere"
  }

  /** Inventory- and economic-only categories, and missing ones, are technosphere. */
  lemma NonEnvironmentalCategoryIsTechnosphere(e: Entry)
    requires !IsProductRow(e)
    requires e.categories in {None, Some("inventory"), Some("economic")}
    ensures EntryType(e) == "technosphere"
  {
    var text := CategoriesText(e.categories);
    AbsentChar(text, "water", 0);
    AbsentChar(text, "air", 0);
    AbsentChar(text, "natural", 1);
    AbsentChar(text, "soil", 0);
  }

  /** `set_type` */
  method SetType(t: array<Entry>)
    modifies t
    ensures forall i | 0 <= i < t.Length :: t[i] == old(t[i]).(kind := EntryType(old(t[i])))
  {
    for i := 0 to t.Length
      invariant forall j | 0 <= j < i :: t[j] == old(t[j]).(kind := EntryType(old(t[j])))
      invariant forall j | i <= j < t.Length :: t[j] == old(t[j])
    {
      t[i] := t[i].(kind := EntryType(t[i]));
    }
  }

  /** `determine_database` */
  function DetermineDatabase(kind: string, background: string, activity: string): (r: Option<string>)
    ensures kind == "biosphere" ==> r == Some("biosphere3")
    ensures kind == "technosphere" ==> r == Some(background)
    ensures kind == "production" ==> r == Some(activity)
    ensures kind !in {"biosphere", "technosphere", "production"} ==> r == None
  {
    if kind == "biosphere" then Some("biosphere3")
    else if kind == "technosphere" then Some(background)
    else if kind == "production" then Some(activity)
    else None
  }

  /** Every type `set_type` produces has a database. */
  lemma DatabaseOfEveryType(e: Entry, background: string, activity: string)
    ensures DetermineDatabase(EntryType(e), background, activity).Some?
  {
  }
}
