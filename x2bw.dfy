/**
 The per-sheet loop of fauldier/x2bw.py that turns one processed inventory
 sheet into the rows of a Brightway input sheet. Each sheet takes one of two
 routes. The rule route renames flows by the common-name rules and converts
 units. The language-model route replaces every row that is not an internal
 activity by the model's mapping of it. Both routes then fill in amount,
 unit, categories, location, type, database and the uncertainty columns.
 The text of the model's answer is a parameter.
 */
module X2bw {
  import opened Wrappers
  import opened Text
  import opened BasicMapping
  import opened Processing
  import opened LlmMapping

  /** The run-wide settings the loop reads. */
  datatype Settings = Settings(
    llmMapping: bool, ecoinventVersion: string, background: string, activity: string, th: Thermo)

  /**
   What the language-model route needs besides the sheet: the product list,
   Python's text of a float, and the stripped text of the model's answer.
   */
  datatype Route = Route(productList: seq<Option<string>>, fmt: real -> string, answer: string)

  // ---------------------------------------------------------------------
  // Column assignments

  /** A column assignment applied to every row of the table. */
  method Assign(t: array<Entry>, f: Entry -> Entry)
    modifies t
    ensures forall i | 0 <= i < t.Length :: t[i] == f(old(t[i]))
  {
    for i := 0 to t.Length
      invariant forall j | 0 <= j < i :: t[j] == f(old(t[j]))
      invariant forall j | i <= j < t.Length :: t[j] == old(t[j])
    {
      t[i] := f(t[i]);
    }
  }

  /** `name` takes the FLOW NAME column. */
  function Named(e: Entry): Entry {
    e.(name := CellString(e.flowName))
  }

  /**
   The columns that follow the routes: database and categories cleared, the
   CO2 names set to 'air' (`air`, on the rule route only), a compartment-naming
   origin taken as categories, location from ORIGIN and then resolved, the type,
   the database of that type, and the uncertainty columns emptied.
   */
  function Finished(e: Entry, air: bool, s: Settings): Entry {
    var cleared := e.(database := None, categories := None);
    var aired := if air && IsCo2Name(cleared.name) then cleared.(categories := Some("air")) else cleared;
    var placed := if NamesCompartment(aired.origin) then aired.(categories := aired.origin) else aired;
    var located := placed.(location := placed.origin);
    var resolved := located.(location := Some(ResolvedLocation(located)));
    var typed := resolved.(kind := EntryType(resolved));
    typed.(database := DetermineDatabase(typed.kind, s.background, s.activity), uncertainty := NoUncertainty)
  }

  /** The steps from the cleared database column to the uncertainty columns, in the loop's order. */
  method Finish(rows: seq<Entry>, air: bool, s: Settings) returns (out: seq<Entry>)
    ensures |out| == |rows| && forall i | 0 <= i < |rows| :: out[i] == Finished(rows[i], air, s)
  {
    var t := new Entry[|rows|](i requires 0 <= i < |rows| => rows[i]);
    Assign(t, (e: Entry) => e.(database := None));
    Assign(t, (e: Entry) => e.(categories := None));
    if air {
      SetCategoryToAir(t);
    }
    SetCategoryFromLocation(t);
    Assign(t, (e: Entry) => e.(location := e.origin));
    SetLocation(t);
    SetType(t);
    var background, activity := s.background, s.activity;
    Assign(t, (e: Entry) => e.(database := DetermineDatabase(e.kind, background, activity)));
    Assign(t, (e: Entry) => e.(uncertainty := NoUncertainty));
    out := t[..];
  }

  /** Every finished row has a location and a database, the database of its type. */
  lemma FinishedColumns(e: Entry, air: bool, s: Settings)
    ensures var f := Finished(e, air, s);
      && f.kind in {"production", "biosphere", "technosphere"}
      && (f.kind == "production" <==> IsProductRow(e))
      && f.database == DetermineDatabase(f.kind, s.background, s.activity)
      && f.database.Some?
      && f.location.Some? && f.location.value != ""
      && f.uncertainty == NoUncertainty
      && f == e.(categories := f.categories, location := f.location, kind := f.kind,
                 database := f.database, uncertainty := NoUncertainty)
  {
    var f := Finished(e, air, s);
    DatabaseOfEveryType(f, s.background, s.activity);
    ResolvedLocationRules(f.(location := f.origin));
  }

  /**
   The categories of a finished row: a compartment-naming origin wins over the
   CO2 rule, which applies only when `air` is set; otherwise none.
   */
  lemma FinishedCategories(e: Entry, air: bool, s: Settings)
    ensures NamesCompartment(e.origin) ==> Finished(e, air, s).categories == e.origin
    ensures !NamesCompartment(e.origin) && air && IsCo2Name(e.name) ==> Finished(e, air, s).categories == Some("air")
    ensures !NamesCompartment(e.origin) && !(air && IsCo2Name(e.name)) ==> Finished(e, air, s).categories == None
  {
  }

  // ---------------------------------------------------------------------
  // The rule route

  /** A row after amount, the common-name rules (and the 3.10 names) and the unit mapping. */
  function Renamed(e: Entry, s: Settings): Entry {
    var amounted := e.(amount := e.quantity);
    var common := amounted.(name := CommonName(amounted.name));
    var versioned := if s.ecoinventVersion == "3.10" then common.(name := Ecoinvent310Name(common.name)) else common;
    versioned.(unit := MapUnit(versioned.rawUnit))
  }

  /** One row on the rule route, or the error its unit conversion raises. */
  function RuleRow(e: Entry, s: Settings): Result<Entry> {
    match UnitConversionRow(Renamed(e, s), s.th)
    case Err(x) => Err(x)
    case Ok(v) => Ok(Finished(v, true, s))
  }

  /** Amount, the common-name rules, the 3.10 names when that version is set, and the unit mapping. */
  method Rename(rows: seq<Entry>, s: Settings) returns (out: seq<Entry>)
    ensures |out| == |rows| && forall i | 0 <= i < |rows| :: out[i] == Renamed(rows[i], s)
  {
    var t := new Entry[|rows|](i requires 0 <= i < |rows| => rows[i]);
    Assign(t, (e: Entry) => e.(amount := e.quantity));
    MapCommonNames(t);
    if s.ecoinventVersion == "3.10" {
      Ecoinvent310Names(t);
    }
    Assign(t, (e: Entry) => e.(unit := MapUnit(e.rawUnit)));
    out := t[..];
  }

  /**
   Some row has no FLOW NAME. Its `name` is then NaN, which neither the
   common-name rules nor the 3.10 replacements change.
   */
  predicate MissingName(rows: seq<Entry>) {
    exists i | 0 <= i < |rows| :: rows[i].flowName.None?
  }

  /**
   The rule route over a named table. The heat pass, the first pass of the
   unit conversion, calls `lower()` on every name, so a missing name raises
   AttributeError before any converter can raise NameError. Otherwise every
   row is mapped by `RuleRow`, or the table fails when one row's conversion
   raises.
   */
  method RuleRoute(rows: seq<Entry>, s: Settings) returns (r: Result<seq<Entry>>)
    ensures r.Err? <==> MissingName(rows) || exists i | 0 <= i < |rows| :: RuleRow(rows[i], s).Err?
    ensures r.Err? ==> r.error == if MissingName(rows) then AttributeError else NameError
    ensures r.Ok? ==> |r.value| == |rows| && forall i | 0 <= i < |rows| :: Ok(r.value[i]) == RuleRow(rows[i], s)
  {
    var renamed := Rename(rows, s);
    if MissingName(rows) {
      return Err(AttributeError);
    }
    assert forall i | 0 <= i < |rows| :: RuleRow(rows[i], s).Err? == UnitConversionRow(renamed[i], s.th).Err?;
    var converted := UnitConversion(renamed, s.th);
    if converted.Err? {
      return Err(converted.error);
    }
    var finished := Finish(converted.value, true, s);
    r := Ok(finished);
  }

  /** The unit conversion changes at most the unit and the amount of a row. */
  lemma ConversionKeepsRow(e: Entry, th: Thermo)
    ensures UnitConversionRow(e, th).Ok? ==>
      var v := UnitConversionRow(e, th).value;
      v == e.(unit := v.unit, amount := v.amount)
  {
    ChainOutputsNotReconverted();
    ChainIsFirstFiring(ConverterChain, e, th);
    FirstFiringKeepsName(ConverterChain, e, th);
  }

  /**
   A row on the rule route keeps its sheet columns, takes the renamed FLOW
   NAME, and gets its categories from a compartment-naming ORIGIN first, from
   the CO2 rule second; its database is that of its type.
   */
  lemma RuleRowColumns(e: Entry, s: Settings)
    requires RuleRow(e, s).Ok?
    ensures var v := RuleRow(e, s).value;
      && v.name == Renamed(e, s).name
      && v.origin == e.origin && v.marker == e.marker && v.quantity == e.quantity && v.rawUnit == e.rawUnit
      && (NamesCompartment(e.origin) ==> v.categories == e.origin)
      && (!NamesCompartment(e.origin) && IsCo2Name(v.name) ==> v.categories == Some("air"))
      && (!NamesCompartment(e.origin) && !IsCo2Name(v.name) ==> v.categories == None)
      && v.database == DetermineDatabase(v.kind, s.background, s.activity) && v.database.Some?
  {
    var w := UnitConversionRow(Renamed(e, s), s.th).value;
    ConversionKeepsRow(Renamed(e, s), s.th);
    FinishedColumns(w, true, s);
    FinishedCategories(w, true, s);
  }

  // ---------------------------------------------------------------------
  // The language-model route

  /** The sheet columns a row has at the time of the recombination: those `drop_duplicates` compares. */
  datatype RowKey = RowKey(
    flowName: Option<string>, marker: Option<string>, origin: Option<string>, rawUnit: string,
    quantity: real, description: Option<string>, name: string)

  function KeyOf(e: Entry): RowKey {
    RowKey(e.flowName, e.marker, e.origin, e.rawUnit, e.quantity, e.description, e.name)
  }

  /** The rows in order, each dropped when a row before it or a key in `seen` has its key. */
  function KeepFirst(rows: seq<Entry>, seen: set<RowKey>): seq<Entry>
    decreases |rows|
  {
    if rows == [] then []
    else if KeyOf(rows[0]) in seen then KeepFirst(rows[1..], seen)
    else [rows[0]] + KeepFirst(rows[1..], seen + {KeyOf(rows[0])})
  }

  /** `drop_duplicates()`: the first row of every key, in order. */
  function DropDuplicates(rows: seq<Entry>): seq<Entry> {
    KeepFirst(rows, {})
  }

  /** No two rows share a key. */
  predicate DistinctKeys(rows: seq<Entry>) {
    forall a, b | 0 <= a < b < |rows| :: KeyOf(rows[a]) != KeyOf(rows[b])
  }

  /** No row before `i` has the key of row `i`. */
  predicate FirstOfKey(rows: seq<Entry>, i: nat)
    requires i < |rows|
  {
    forall j | 0 <= j < i :: KeyOf(rows[j]) != KeyOf(rows[i])
  }

  /** Every kept row is the first row of its key, and its key was not seen. */
  lemma {:induction false} KeepFirstSound(rows: seq<Entry>, seen: set<RowKey>)
    ensures forall e | e in KeepFirst(rows, seen) ::
      KeyOf(e) !in seen && exists i | 0 <= i < |rows| :: rows[i] == e && FirstOfKey(rows, i)
    decreases |rows|
  {
    if rows != [] {
      var x, rest := rows[0], rows[1..];
      var seen' := if KeyOf(x) in seen then seen else seen + {KeyOf(x)};
      KeepFirstSound(rest, seen');
      forall e | e in KeepFirst(rest, seen')
        ensures KeyOf(e) !in seen && exists i | 0 <= i < |rows| :: rows[i] == e && FirstOfKey(rows, i)
      {
        var i' :| 0 <= i' < |rest| && rest[i'] == e && FirstOfKey(rest, i');
        assert rows[i' + 1] == e;
        assert FirstOfKey(rows, i' + 1) by {
          forall j | 0 <= j < i' + 1 ensures KeyOf(rows[j]) != KeyOf(rows[i' + 1]) {
            if j > 0 {
              assert rows[j] == rest[j - 1];
            }
          }
        }
      }
      if KeyOf(x) !in seen {
        assert rows[0] == x && FirstOfKey(rows, 0);
      }
    }
  }

  /** The first row of every unseen key is kept. */
  lemma {:induction false} KeepFirstComplete(rows: seq<Entry>, seen: set<RowKey>)
    ensures forall i | 0 <= i < |rows| && FirstOfKey(rows, i) && KeyOf(rows[i]) !in seen ::
      rows[i] in KeepFirst(rows, seen)
    decreases |rows|
  {
    if rows != [] {
      var x, rest := rows[0], rows[1..];
      var seen' := if KeyOf(x) in seen then seen else seen + {KeyOf(x)};
      KeepFirstComplete(rest, seen');
      forall i | 0 < i < |rows| && FirstOfKey(rows, i) && KeyOf(rows[i]) !in seen
        ensures rows[i] in KeepFirst(rows, seen)
      {
        assert KeyOf(rows[0]) != KeyOf(rows[i]);
        assert rows[i] == rest[i - 1];
        assert FirstOfKey(rest, i - 1) by {
          forall j | 0 <= j < i - 1 ensures KeyOf(rest[j]) != KeyOf(rest[i - 1]) {
            assert rest[j] == rows[j + 1];
          }
        }
      }
    }
  }

  /** No kept row has a key in `seen`. */
  lemma {:induction false} KeepFirstUnseen(rows: seq<Entry>, seen: set<RowKey>)
    ensures forall e | e in KeepFirst(rows, seen) :: KeyOf(e) !in seen
    decreases |rows|
  {
    if rows != [] {
      var seen' := if KeyOf(rows[0]) in seen then seen else seen + {KeyOf(rows[0])};
      KeepFirstUnseen(rows[1..], seen');
    }
  }

  /** No two kept rows share a key. */
  lemma {:induction false} KeepFirstDistinct(rows: seq<Entry>, seen: set<RowKey>)
    ensures DistinctKeys(KeepFirst(rows, seen))
    decreases |rows|
  {
    if rows != [] && KeyOf(rows[0]) in seen {
      KeepFirstDistinct(rows[1..], seen);
      assert KeepFirst(rows, seen) == KeepFirst(rows[1..], seen);
    } else if rows != [] {
      var seen' := seen + {KeyOf(rows[0])};
      var tail := KeepFirst(rows[1..], seen');
      KeepFirstDistinct(rows[1..], seen');
      KeepFirstUnseen(rows[1..], seen');
      var out := [rows[0]] + tail;
      assert KeepFirst(rows, seen) == out;
      forall a, b | 0 <= a < b < |out| ensures KeyOf(out[a]) != KeyOf(out[b]) {
        assert out[b] == tail[b - 1] && tail[b - 1] in tail;
        if a > 0 {
          assert out[a] == tail[a - 1];
        }
      }
    }
  }

  /**
   `drop_duplicates()` keeps exactly the first row of every key, and no two
   of the rows it keeps share a key.
   */
  lemma DropDuplicatesKeepsFirst(rows: seq<Entry>)
    ensures forall e :: e in DropDuplicates(rows) <==> exists i | 0 <= i < |rows| :: rows[i] == e && FirstOfKey(rows, i)
    ensures DistinctKeys(DropDuplicates(rows))
  {
    KeepFirstSound(rows, {});
    KeepFirstComplete(rows, {});
    KeepFirstDistinct(rows, {});
  }

  /** A row of the model's table: only name, ORIGIN, UNIT and QUANTITY are set; the other sheet columns are empty. */
  function MappedRow(m: Mapped): Entry {
    Entry(None, None, Some(m.origin), m.unit, m.quantity, None, m.name, 0.0, "", None, None, "", None, NoUncertainty)
  }

  /** The product row, the model's rows and the internal activities, without duplicates. */
  function Recombined(p: Prepared, ms: seq<Mapped>): seq<Entry> {
    DropDuplicates(p.productRow + seq(|ms|, i requires 0 <= i < |ms| => MappedRow(ms[i])) + p.internal)
  }

  /** A recombined row with `amount` from QUANTITY and `unit` from UNIT. */
  function Measured(e: Entry): Entry {
    e.(amount := e.quantity).(unit := MapUnit(e.rawUnit))
  }

  /** The amount and unit columns of the language-model route. */
  method Measure(rows: seq<Entry>) returns (out: seq<Entry>)
    ensures |out| == |rows| && forall i | 0 <= i < |rows| :: out[i] == Measured(rows[i])
  {
    var t := new Entry[|rows|](i requires 0 <= i < |rows| => rows[i]);
    Assign(t, (e: Entry) => e.(amount := e.quantity));
    Assign(t, (e: Entry) => e.(unit := MapUnit(e.rawUnit)));
    out := t[..];
  }

  /** One recombined row after amount, unit and the common steps, with no rule applied. */
  function LlmRow(e: Entry, s: Settings): Entry {
    Finished(Measured(e), false, s)
  }

  function LlmRows(rows: seq<Entry>, s: Settings): (r: seq<Entry>)
    ensures |r| == |rows| && forall i | 0 <= i < |rows| :: r[i] == LlmRow(rows[i], s)
  {
    seq(|rows|, i requires 0 <= i < |rows| => LlmRow(rows[i], s))
  }

  /** The language-model route over a named table, given the model's answer. */
  function LlmSheet(rows: seq<Entry>, s: Settings, route: Route): Result<seq<Entry>> {
    var p := TransformDataForLlm(rows, route.productList, route.fmt);
    match SplitLlmResults(Resolve(ParsedResults(Lines(route.answer)), p.userInputs))
    case Err(x) => Err(x)
    case Ok(ms) =>
      Ok(LlmRows(Recombined(p, ms), s))
  }

  method LlmRoute(rows: seq<Entry>, s: Settings, route: Route) returns (r: Result<seq<Entry>>)
    ensures r == LlmSheet(rows, s, route)
  {
    var p := TransformDataForLlm(rows, route.productList, route.fmt);
    var results := ParseResponse(route.answer, p.userInputs);
    var split := SplitLlmResults(results);
    if split.Err? {
      return Err(split.error);
    }
    var combined := Recombined(p, split.value);
    var measured := Measure(combined);
    var finished := Finish(measured, false, s);
    assert finished == LlmRows(combined, s);
    r := Ok(finished);
  }

  /**
   On the language-model route no rule renames a row and the CO2 rule does
   not apply: names are those of the recombined rows, and categories come
   from a compartment-naming ORIGIN or are empty.
   */
  lemma LlmRowColumns(e: Entry, s: Settings)
    ensures var v := LlmRow(e, s);
      && v.name == e.name && v.origin == e.origin && v.amount == e.quantity && v.unit == MapUnit(e.rawUnit)
      && v.categories == (if NamesCompartment(e.origin) then e.origin else None)
      && v.database == DetermineDatabase(v.kind, s.background, s.activity) && v.database.Some?
  {
    FinishedColumns(Measured(e), false, s);
  }

  /**
   The recombined table holds the product row and every internal activity
   (or a row with the same sheet columns before it) and every row the model
   returned, once per key.
   */
  lemma RecombinedRows(p: Prepared, ms: seq<Mapped>)
    ensures var all := p.productRow + seq(|ms|, i requires 0 <= i < |ms| => MappedRow(ms[i])) + p.internal;
      var out := Recombined(p, ms);
      && (forall i | 0 <= i < |all| :: exists e | e in out :: KeyOf(e) == KeyOf(all[i]))
      && (forall e | e in out :: e in all)
      && DistinctKeys(out)
  {
    var all := p.productRow + seq(|ms|, i requires 0 <= i < |ms| => MappedRow(ms[i])) + p.internal;
    DropDuplicatesKeepsFirst(all);
    forall i | 0 <= i < |all| ensures exists e | e in DropDuplicates(all) :: KeyOf(e) == KeyOf(all[i]) {
      var k := FirstWithKey(all, i);
      assert all[k] in DropDuplicates(all);
    }
  }

  /** The position of the first row with the key of row `i`. */
  function FirstWithKey(rows: seq<Entry>, i: nat): (k: nat)
    requires i < |rows|
    ensures k <= i && KeyOf(rows[k]) == KeyOf(rows[i]) && FirstOfKey(rows, k)
    decreases i
  {
    if FirstOfKey(rows, i) then i
    else
      var j :| 0 <= j < i && KeyOf(rows[j]) == KeyOf(rows[i]);
      FirstWithKey(rows, j)
  }

  // ---------------------------------------------------------------------
  // One sheet

  /** The loop body for one sheet: `name` from FLOW NAME, then the route the settings choose. */
  method TransformSheet(sheet: seq<Entry>, s: Settings, route: Route) returns (r: Result<seq<Entry>>)
    ensures var named := seq(|sheet|, i requires 0 <= i < |sheet| => Named(sheet[i]));
      s.llmMapping ==> r == LlmSheet(named, s, route)
    ensures !s.llmMapping ==>
      (r.Err? <==> MissingName(sheet) || exists i | 0 <= i < |sheet| :: RuleRow(Named(sheet[i]), s).Err?)
    ensures !s.llmMapping && r.Err? ==> r.error == if MissingName(sheet) then AttributeError else NameError
    ensures !s.llmMapping && r.Ok? ==>
      |r.value| == |sheet| && forall i | 0 <= i < |sheet| :: Ok(r.value[i]) == RuleRow(Named(sheet[i]), s)
  {
    var t := new Entry[|sheet|](i requires 0 <= i < |sheet| => sheet[i]);
    Assign(t, Named);
    var named := t[..];
    assert forall i | 0 <= i < |sheet| :: named[i] == Named(sheet[i]);
    assert named == seq(|sheet|, i requires 0 <= i < |sheet| => Named(sheet[i]));
    assert MissingName(named) == MissingName(sheet) by {
      assert forall i | 0 <= i < |sheet| :: named[i].flowName == sheet[i].flowName;
    }
    if s.llmMapping {
      r := LlmRoute(named, s, route);
    } else {
      r := RuleRoute(named, s);
    }
  }
}
