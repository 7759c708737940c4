/**
 Sheet bookkeeping of fauldier/processing.py: the sheet-list filter that
 stops at "ANNEX", the by-product consolidation of `process_dataframe`, the
 filling of the Brightway template grid, and the merge of the per-sheet
 blocks into one output grid.
 */
module Processing {
  import opened Wrappers
  import opened BasicMapping

  // ---------------------------------------------------------------------
  // combine_filtered_entries

  /** `str(cell)` of a sheet-name cell; an empty cell (NaN) renders as "nan". */
  function CellString(c: Option<string>): string {
    match c
    case None => "nan"
    case Some(s) => s
  }

  /** The position of the first "ANNEX", or the length when there is none. */
  function AnnexIndex(entries: seq<string>): (r: nat)
    ensures r <= |entries|
    ensures forall i | 0 <= i < r :: entries[i] != "ANNEX"
    ensures r < |entries| ==> entries[r] == "ANNEX"
  {
    if entries == [] || entries[0] == "ANNEX" then 0 else 1 + AnnexIndex(entries[1..])
  }

  /** The entries of `s` that are not excluded, in order. */
  function Without(s: seq<string>, excluded: seq<string>): seq<string> {
    if s == [] then []
    else if s[0] in excluded then Without(s[1..], excluded)
    else [s[0]] + Without(s[1..], excluded)
  }

  lemma {:induction false} WithoutMembers(s: seq<string>, excluded: seq<string>, x: string)
    ensures x in Without(s, excluded) <==> x in s && x !in excluded
  {
    if s != [] {
      WithoutMembers(s[1..], excluded, x);
      assert s == [s[0]] + s[1..];
    }
  }

  /** The specification of `combine_filtered_entries`: the non-excluded entries before the first "ANNEX". */
  function FilteredEntries(cells: seq<Option<string>>, excluded: seq<string>): seq<string> {
    var entries := seq(|cells|, i requires 0 <= i < |cells| => CellString(cells[i]));
    Without(entries[..AnnexIndex(entries)], excluded)
  }

  /** An entry is kept exactly when it occurs before the first "ANNEX" and is not excluded; "ANNEX" itself never is. */
  lemma FilteredEntriesMembers(cells: seq<Option<string>>, excluded: seq<string>, x: string)
    ensures x in FilteredEntries(cells, excluded) <==>
      x !in excluded && exists i | 0 <= i < |cells| :: CellString(cells[i]) == x && forall j | 0 <= j <= i :: CellString(cells[j]) != "ANNEX"
    ensures "ANNEX" !in FilteredEntries(cells, excluded)
  {
    var entries := seq(|cells|, i requires 0 <= i < |cells| => CellString(cells[i]));
    var a := AnnexIndex(entries);
    WithoutMembers(entries[..a], excluded, x);
    WithoutMembers(entries[..a], excluded, "ANNEX");
    if x in entries[..a] && x !in excluded {
      var i :| 0 <= i < a && entries[i] == x;
      forall j | 0 <= j <= i ensures CellString(cells[j]) != "ANNEX" {
        assert entries[j] == CellString(cells[j]);
      }
    }
    if exists i | 0 <= i < |cells| :: CellString(cells[i]) == x && forall j | 0 <= j <= i :: CellString(cells[j]) != "ANNEX" {
      var i :| 0 <= i < |cells| && CellString(cells[i]) == x && forall j | 0 <= j <= i :: CellString(cells[j]) != "ANNEX";
      assert forall j | 0 <= j <= i :: entries[j] != "ANNEX";
      assert entries[..a][i] == x;
    }
  }

  lemma {:induction false} WithoutAppend(s: seq<string>, x: string, excluded: seq<string>)
    ensures Without(s + [x], excluded) == Without(s, excluded) + (if x in excluded then [] else [x])
  {
    if s == [] {
      assert s + [x] == [x];
    } else {
      assert (s + [x])[1..] == s[1..] + [x];
      WithoutAppend(s[1..], x, excluded);
    }
  }

  /** `combine_filtered_entries` */
  method CombineFilteredEntries(cells: seq<Option<string>>, excluded: seq<string>) returns (filtered: seq<string>)
    ensures filtered == FilteredEntries(cells, excluded)
  {
    ghost var entries := seq(|cells|, i requires 0 <= i < |cells| => CellString(cells[i]));
    filtered := [];
    var i := 0;
    while i < |cells|
      invariant i <= AnnexIndex(entries)
      invariant filtered == Without(entries[..i], excluded)
    {
      var entry := CellString(cells[i]);
      if entry == "ANNEX" {
        assert entries[i] == entry;
        break;
      }
      if entry !in excluded {
        filtered := filtered + [entry];
      }
      WithoutAppend(entries[..i], entry, excluded);
      assert entries[..i + 1] == entries[..i] + [entry];
      i := i + 1;
    }
    assert i == AnnexIndex(entries);
  }

  // ---------------------------------------------------------------------
  // process_dataframe

  const NoAvoidedBurden := "no avoided burden"

  /** A row with its index key. */
  datatype Row = Row(key: nat, entry: Entry)

  /** `row['Unnamed: 1'] == 'PRODUCTS'`, exact. */
  predicate IsProducts(e: Entry) {
    e.marker == Some("PRODUCTS")
  }

  predicate CarriesNoBurden(e: Entry) {
    e.description == Some(NoAvoidedBurden)
  }

  /** A by-product relabelled as an avoided burden. */
  function Negated(e: Entry): Entry {
    e.(marker := Some("INPUTS"), quantity := -e.quantity)
  }

  /** `df.at[key, ...]` read: a key the frame lacks raises KeyError. */
  function At(frame: seq<Row>, key: nat): Result<Entry> {
    if frame == [] then Err(KeyError)
    else if frame[0].key == key then Ok(frame[0].entry)
    else At(frame[1..], key)
  }

  /**
   `df.at[key, ...] = v` rewriting the row with that key. A missing key
   would make pandas append a new row of blanks; the model reports that as
   `EnlargedFrame`.
   */
  function SetAt(frame: seq<Row>, key: nat, f: Entry -> Entry): Result<seq<Row>> {
    if frame == [] then Err(EnlargedFrame)
    else if frame[0].key == key then Ok([Row(key, f(frame[0].entry))] + frame[1..])
    else match SetAt(frame[1..], key, f)
      case Err(x) => Err(x)
      case Ok(rest) => Ok([frame[0]] + rest)
  }

  predicate HasNoBurden(frame: seq<Row>) {
    exists i | 0 <= i < |frame| :: CarriesNoBurden(frame[i].entry)
  }

  /** Reading and writing find the same rows: a key `At` cannot read, `SetAt` cannot write. */
  lemma {:induction false} SetAtNeedsKey(frame: seq<Row>, key: nat, f: Entry -> Entry)
    ensures At(frame, key).Err? <==> SetAt(frame, key, f).Err?
    ensures At(frame, key).Err? ==> At(frame, key) == Err(KeyError) && SetAt(frame, key, f) == Err(EnlargedFrame)
  {
    if frame != [] && frame[0].key != key {
      SetAtNeedsKey(frame[1..], key, f);
    }
  }

  /** `df[df['DESCRIPTION'] != "no avoided burden"]` */
  function DropNoBurden(frame: seq<Row>): seq<Row> {
    if frame == [] then []
    else if CarriesNoBurden(frame[0].entry) then DropNoBurden(frame[1..])
    else [frame[0]] + DropNoBurden(frame[1..])
  }

  /** The variables of the loop: the PRODUCTS counter, the current frame and the product list. */
  datatype State = State(count: nat, frame: seq<Row>, products: seq<Option<string>>)

  /** One iteration of the loop of `process_dataframe`, on the row with key `key` as the loop sees it. */
  function Step(st: State, key: nat, row: Entry): Result<State> {
    if !IsProducts(row) then Ok(st)
    else
      var count := st.count + 1;
      var written :=
        if count > 1 && !HasNoBurden(st.frame) then SetAt(st.frame, key, Negated) else Ok(st.frame);
      match written
      case Err(x) => Err(x)
      case Ok(f) =>
        var g := if count > 1 then DropNoBurden(f) else f;
        match At(g, key)
        case Err(x) => Err(x)
        case Ok(e) => Ok(State(count, g, st.products + [e.flowName]))
  }

  /** The frame with labels 0, 1, ... as read from the sheet. */
  function Labelled(rows: seq<Entry>): seq<Row> {
    FrameFrom(rows, 0, 0, false, 1)
  }

  /** The state after the first `k` iterations. */
  function ProcessUpTo(rows: seq<Entry>, products: seq<Option<string>>, k: nat): Result<State>
    requires k <= |rows|
  {
    if k == 0 then Ok(State(0, Labelled(rows), products))
    else
      match ProcessUpTo(rows, products, k - 1)
      case Err(x) => Err(x)
      case Ok(st) => Step(st, k - 1, rows[k - 1])
  }

  /** The result of `process_dataframe`: the frame and the product list. */
  function ProcessResult(rows: seq<Entry>, products: seq<Option<string>>): Result<(seq<Row>, seq<Option<string>>)> {
    match ProcessUpTo(rows, products, |rows|)
    case Err(x) => Err(x)
    case Ok(st) => Ok((st.frame, st.products))
  }

  lemma {:induction false} ErrorPersists(rows: seq<Entry>, products: seq<Option<string>>, k: nat, m: nat)
    requires k <= m <= |rows| && ProcessUpTo(rows, products, k).Err?
    ensures ProcessUpTo(rows, products, m) == ProcessUpTo(rows, products, k)
  {
    if k < m {
      ErrorPersists(rows, products, k, m - 1);
    }
  }

  /** `process_dataframe` */
  method ProcessDataframe(rows: seq<Entry>, productList: seq<Option<string>>)
    returns (r: Result<(seq<Row>, seq<Option<string>>)>)
    ensures r == ProcessResult(rows, productList)
  {
    var productsCount := 0;
    var df := Labelled(rows);
    var products := productList;
    for index := 0 to |rows|
      invariant ProcessUpTo(rows, productList, index) == Ok(State(productsCount, df, products))
    {
      var row := rows[index];
      if row.marker == Some("PRODUCTS") {
        productsCount := productsCount + 1;
        if productsCount > 1 {
          if !HasNoBurden(df) {
            var w := SetAt(df, index, Negated);
            if w.Err? {
              ErrorPersists(rows, productList, index + 1, |rows|);
              return Err(w.error);
            }
            df := w.value;
          }
          df := DropNoBurden(df);
        }
        var e := At(df, index);
        if e.Err? {
          ErrorPersists(rows, productList, index + 1, |rows|);
          return Err(e.error);
        }
        products := products + [e.value.flowName];
      }
    }
    r := Ok((df, products));
  }

  // The frames the loop produces, in closed form.

  /** The number of PRODUCTS rows in `s`. */
  function CountProducts(s: seq<Entry>): nat {
    if s == [] then 0 else CountProducts(s[..|s| - 1]) + (if IsProducts(s[|s| - 1]) then 1 else 0)
  }

  /** The FLOW NAMEs of the PRODUCTS rows of `s`, in order. */
  function ProductNames(s: seq<Entry>): seq<Option<string>> {
    if s == [] then [] else ProductNames(s[..|s| - 1]) + (if IsProducts(s[|s| - 1]) then [s[|s| - 1].flowName] else [])
  }

  /**
   Row `j` after `k` iterations: a PRODUCTS row already visited with at least
   `t` PRODUCTS rows before it has been negated.
   */
  function Post(rows: seq<Entry>, k: nat, t: nat, j: nat): Entry
    requires j < |rows|
  {
    if j < k && IsProducts(rows[j]) && CountProducts(rows[..j]) >= t then Negated(rows[j]) else rows[j]
  }

  /** The rows from position `j` on, each as `Post` gives it; with `drop`, rows carrying the marker are gone. */
  function FrameFrom(rows: seq<Entry>, k: nat, j: nat, drop: bool, t: nat): seq<Row>
    decreases |rows| - j
  {
    if j >= |rows| then []
    else if drop && CarriesNoBurden(rows[j]) then FrameFrom(rows, k, j + 1, drop, t)
    else [Row(j, Post(rows, k, t, j))] + FrameFrom(rows, k, j + 1, drop, t)
  }

  /** A closed-form frame from position `j` on holds no key below `j`. */
  lemma {:induction false} AtBelow(rows: seq<Entry>, k: nat, j: nat, drop: bool, t: nat, l: nat)
    requires l < j
    ensures At(FrameFrom(rows, k, j, drop, t), l) == Err(KeyError)
    decreases |rows| - j
  {
    if j < |rows| {
      AtBelow(rows, k, j + 1, drop, t, l);
    }
  }

  /** Reading key `l` from a closed-form frame. */
  lemma {:induction false} AtFrame(rows: seq<Entry>, k: nat, j: nat, drop: bool, t: nat, l: nat)
    requires j <= l < |rows|
    ensures At(FrameFrom(rows, k, j, drop, t), l) ==
      if drop && CarriesNoBurden(rows[l]) then Err(KeyError) else Ok(Post(rows, k, t, l))
    decreases |rows| - j
  {
    var f := FrameFrom(rows, k, j, drop, t);
    var rest := FrameFrom(rows, k, j + 1, drop, t);
    if j == l {
      if drop && CarriesNoBurden(rows[l]) {
        AtBelow(rows, k, j + 1, drop, t, l);
      }
    } else {
      AtFrame(rows, k, j + 1, drop, t, l);
      if !(drop && CarriesNoBurden(rows[j])) {
        assert f[0].key == j && f[1..] == rest;
      }
    }
  }

  /** Negating the current row `k` of a closed-form frame gives the frame after iteration `k`. */
  lemma {:induction false} SetFrame(rows: seq<Entry>, k: nat, j: nat, drop: bool, t: nat)
    requires j <= k < |rows| && !(drop && CarriesNoBurden(rows[k]))
    requires IsProducts(rows[k]) && CountProducts(rows[..k]) >= t
    ensures SetAt(FrameFrom(rows, k, j, drop, t), k, Negated) == Ok(FrameFrom(rows, k + 1, j, drop, t))
    decreases |rows| - j
  {
    var f := FrameFrom(rows, k, j, drop, t);
    if j == k {
      assert f[0] == Row(k, rows[k]);
      assert f[1..] == FrameFrom(rows, k, j + 1, drop, t);
      FrameAfter(rows, k, j + 1, drop, t);
    } else {
      SetFrame(rows, k, j + 1, drop, t);
      if !(drop && CarriesNoBurden(rows[j])) {
        assert f[0].key == j && f[1..] == FrameFrom(rows, k, j + 1, drop, t);
      }
    }
  }

  /** Rows past `k` look the same after `k` and after `k + 1` iterations. */
  lemma {:induction false} FrameAfter(rows: seq<Entry>, k: nat, j: nat, drop: bool, t: nat)
    requires k < j
    ensures FrameFrom(rows, k, j, drop, t) == FrameFrom(rows, k + 1, j, drop, t)
    decreases |rows| - j
  {
    if j < |rows| {
      FrameAfter(rows, k, j + 1, drop, t);
    }
  }

  /** An iteration that negates nothing leaves the closed-form frame as it was. */
  lemma {:induction false} FrameUnchanged(rows: seq<Entry>, k: nat, j: nat, drop: bool, t: nat)
    requires k < |rows| && !(IsProducts(rows[k]) && CountProducts(rows[..k]) >= t)
    ensures FrameFrom(rows, k, j, drop, t) == FrameFrom(rows, k + 1, j, drop, t)
    decreases |rows| - j
  {
    if j < |rows| {
      FrameUnchanged(rows, k, j + 1, drop, t);
    }
  }

  lemma {:induction false} FrameMarker(rows: seq<Entry>, k: nat, j: nat, drop: bool, t: nat)
    ensures HasNoBurden(FrameFrom(rows, k, j, drop, t)) <==> !drop && exists l | j <= l < |rows| :: CarriesNoBurden(rows[l])
    decreases |rows| - j
  {
    var f := FrameFrom(rows, k, j, drop, t);
    if j < |rows| {
      FrameMarker(rows, k, j + 1, drop, t);
      var rest := FrameFrom(rows, k, j + 1, drop, t);
      if drop && CarriesNoBurden(rows[j]) {
        assert f == rest;
      } else {
        assert f == [Row(j, Post(rows, k, t, j))] + rest;
        assert Post(rows, k, t, j).description == rows[j].description;
        if !drop && exists l | j <= l < |rows| :: CarriesNoBurden(rows[l]) {
          var l :| j <= l < |rows| && CarriesNoBurden(rows[l]);
          if l == j {
            assert CarriesNoBurden(f[0].entry);
          } else {
            var i :| 0 <= i < |rest| && CarriesNoBurden(rest[i].entry);
            assert f[i + 1] == rest[i];
          }
        }
        if HasNoBurden(f) {
          var i :| 0 <= i < |f| && CarriesNoBurden(f[i].entry);
          if i == 0 {
            assert CarriesNoBurden(rows[j]);
          } else {
            assert f[i] == rest[i - 1];
          }
        }
      }
    }
  }

  lemma {:induction false} DropFrame(rows: seq<Entry>, k: nat, j: nat, drop: bool, t: nat)
    ensures DropNoBurden(FrameFrom(rows, k, j, drop, t)) == FrameFrom(rows, k, j, true, t)
    decreases |rows| - j
  {
    if j < |rows| {
      DropFrame(rows, k, j + 1, drop, t);
      var f := FrameFrom(rows, k, j, drop, t);
      if !(drop && CarriesNoBurden(rows[j])) {
        assert f[0] == Row(j, Post(rows, k, t, j)) && f[1..] == FrameFrom(rows, k, j + 1, drop, t);
      }
    }
  }

  /** Without `drop` the closed-form frame holds every row, each under its own key. */
  lemma {:induction false} FrameKeepsAll(rows: seq<Entry>, k: nat, j: nat, t: nat)
    requires j <= |rows|
    ensures |FrameFrom(rows, k, j, false, t)| == |rows| - j
    ensures forall i | 0 <= i < |rows| - j :: FrameFrom(rows, k, j, false, t)[i] == Row(j + i, Post(rows, k, t, j + i))
    decreases |rows| - j
  {
    if j < |rows| {
      FrameKeepsAll(rows, k, j + 1, t);
    }
  }

  lemma PrefixStep(rows: seq<Entry>, k: nat)
    requires k < |rows|
    ensures rows[..k + 1][..k] == rows[..k] && rows[..k + 1][k] == rows[k]
    ensures CountProducts(rows[..k + 1]) == CountProducts(rows[..k]) + (if IsProducts(rows[k]) then 1 else 0)
    ensures ProductNames(rows[..k + 1]) == ProductNames(rows[..k]) + (if IsProducts(rows[k]) then [rows[k].flowName] else [])
  {
    assert rows[..k + 1][..k] == rows[..k];
  }

  /** Later prefixes count at least the PRODUCTS rows of earlier ones, plus the row in between. */
  lemma {:induction false} CountGrows(rows: seq<Entry>, j: nat, k: nat)
    requires j < k <= |rows|
    ensures CountProducts(rows[..j]) + (if IsProducts(rows[j]) then 1 else 0) <= CountProducts(rows[..k])
  {
    PrefixStep(rows, k - 1);
    if j < k - 1 {
      CountGrows(rows, j, k - 1);
    }
  }

  /** While fewer than two PRODUCTS rows are visited, thresholds 1 and 2 give the same frame. */
  lemma {:induction false} ThresholdIrrelevant(rows: seq<Entry>, k: nat, j: nat, drop: bool)
    requires k <= |rows| && CountProducts(rows[..k]) <= 1
    ensures FrameFrom(rows, k, j, drop, 1) == FrameFrom(rows, k, j, drop, 2)
    decreases |rows| - j
  {
    if j < |rows| {
      ThresholdIrrelevant(rows, k, j + 1, drop);
      if j < k {
        CountGrows(rows, j, k);
      }
      assert Post(rows, k, 1, j) == Post(rows, k, 2, j);
    }
  }

  /** The loop state after `k` iterations when no negation needs a dropped row: the first phase. */
  function PhaseOne(rows: seq<Entry>, products: seq<Option<string>>, k: nat): State
    requires k <= |rows|
  {
    State(CountProducts(rows[..k]), FrameFrom(rows, k, 0, false, 1), products + ProductNames(rows[..k]))
  }

  /** The loop state after `k` iterations once the marker rows are dropped: the second phase. */
  function PhaseTwo(rows: seq<Entry>, products: seq<Option<string>>, k: nat): State
    requires k <= |rows|
  {
    State(CountProducts(rows[..k]), FrameFrom(rows, k, 0, true, 2), products + ProductNames(rows[..k]))
  }

  lemma StepNonProduct(rows: seq<Entry>, products: seq<Option<string>>, k: nat, drop: bool, t: nat)
    requires k < |rows| && !IsProducts(rows[k])
    ensures var st := State(CountProducts(rows[..k]), FrameFrom(rows, k, 0, drop, t), products + ProductNames(rows[..k]));
      Step(st, k, rows[k]) == Ok(State(CountProducts(rows[..k + 1]), FrameFrom(rows, k + 1, 0, drop, t), products + ProductNames(rows[..k + 1])))
  {
    PrefixStep(rows, k);
    FrameUnchanged(rows, k, 0, drop, t);
    assert ProductNames(rows[..k + 1]) == ProductNames(rows[..k]);
    assert CountProducts(rows[..k + 1]) == CountProducts(rows[..k]);
    var st := State(CountProducts(rows[..k]), FrameFrom(rows, k, 0, drop, t), products + ProductNames(rows[..k]));
    assert Step(st, k, rows[k]) == Ok(st);
  }

  /** The first PRODUCTS row: nothing is written or dropped, its FLOW NAME is recorded. */
  lemma StepFirstProduct(rows: seq<Entry>, products: seq<Option<string>>, k: nat)
    requires k < |rows| && IsProducts(rows[k]) && CountProducts(rows[..k]) == 0
    ensures Step(PhaseOne(rows, products, k), k, rows[k]) == Ok(PhaseOne(rows, products, k + 1))
  {
    PrefixStep(rows, k);
    assert products + ProductNames(rows[..k + 1]) == (products + ProductNames(rows[..k])) + [rows[k].flowName];
    FrameUnchanged(rows, k, 0, false, 1);
    AtFrame(rows, k + 1, 0, false, 1, k);
  }

  /** A later PRODUCTS row in a sheet without the marker: it is negated in place and nothing is dropped. */
  lemma StepLaterProduct(rows: seq<Entry>, products: seq<Option<string>>, k: nat)
    requires k < |rows| && IsProducts(rows[k]) && CountProducts(rows[..k]) >= 1
    requires forall l | 0 <= l < |rows| :: !CarriesNoBurden(rows[l])
    ensures Step(PhaseOne(rows, products, k), k, rows[k]) == Ok(PhaseOne(rows, products, k + 1))
  {
    PrefixStep(rows, k);
    assert products + ProductNames(rows[..k + 1]) == (products + ProductNames(rows[..k])) + [rows[k].flowName];
    LaterProductFrames(rows, k);
  }

  lemma LaterProductFrames(rows: seq<Entry>, k: nat)
    requires k < |rows| && IsProducts(rows[k]) && CountProducts(rows[..k]) >= 1
    requires forall l | 0 <= l < |rows| :: !CarriesNoBurden(rows[l])
    ensures var f := FrameFrom(rows, k, 0, false, 1);
      var g := FrameFrom(rows, k + 1, 0, false, 1);
      !HasNoBurden(f) && SetAt(f, k, Negated) == Ok(g) && DropNoBurden(g) == g && At(g, k) == Ok(Negated(rows[k]))
  {
    FrameMarker(rows, k, 0, false, 1);
    SetFrame(rows, k, 0, false, 1);
    DropFrame(rows, k + 1, 0, false, 1);
    NoMarkerNoDrop(rows, k + 1, 0, 1);
    AtFrame(rows, k + 1, 0, false, 1, k);
  }

  lemma {:induction false} NoMarkerNoDrop(rows: seq<Entry>, k: nat, j: nat, t: nat)
    requires forall l | 0 <= l < |rows| :: !CarriesNoBurden(rows[l])
    ensures FrameFrom(rows, k, j, true, t) == FrameFrom(rows, k, j, false, t)
    decreases |rows| - j
  {
    if j < |rows| {
      NoMarkerNoDrop(rows, k, j + 1, t);
    }
  }

  /** The first phase lasts while no marker exists or fewer than two PRODUCTS rows are visited. */
  lemma {:induction false} PhaseOneHolds(rows: seq<Entry>, products: seq<Option<string>>, k: nat)
    requires k <= |rows|
    requires CountProducts(rows[..k]) <= 1 || forall l | 0 <= l < |rows| :: !CarriesNoBurden(rows[l])
    ensures ProcessUpTo(rows, products, k) == Ok(PhaseOne(rows, products, k))
  {
    if k > 0 {
      PrefixStep(rows, k - 1);
      PhaseOneHolds(rows, products, k - 1);
      if IsProducts(rows[k - 1]) && CountProducts(rows[..k - 1]) == 0 {
        StepFirstProduct(rows, products, k - 1);
      } else if IsProducts(rows[k - 1]) {
        StepLaterProduct(rows, products, k - 1);
      } else {
        StepNonProduct(rows, products, k - 1, false, 1);
      }
    } else {
      assert rows[..k] == [];
      assert products + [] == products;
    }
  }

  /** The second PRODUCTS row `p`, with a marker in the sheet: nothing is negated, the marker rows go. */
  lemma StepSecondProduct(rows: seq<Entry>, products: seq<Option<string>>, p: nat)
    requires p < |rows| && IsProducts(rows[p]) && CountProducts(rows[..p]) == 1
    requires exists l | 0 <= l < |rows| :: CarriesNoBurden(rows[l])
    ensures Step(PhaseOne(rows, products, p), p, rows[p]) ==
      if CarriesNoBurden(rows[p]) then Err(KeyError) else Ok(PhaseTwo(rows, products, p + 1))
  {
    PrefixStep(rows, p);
    assert products + ProductNames(rows[..p + 1]) == (products + ProductNames(rows[..p])) + [rows[p].flowName];
    var f := FrameFrom(rows, p, 0, false, 1);
    var g := FrameFrom(rows, p + 1, 0, true, 2);
    FrameMarker(rows, p, 0, false, 1);
    assert HasNoBurden(f);
    DropFrame(rows, p, 0, false, 1);
    ThresholdIrrelevant(rows, p, 0, true);
    FrameUnchanged(rows, p, 0, true, 2);
    assert DropNoBurden(f) == g;
    AtFrame(rows, p + 1, 0, true, 2, p);
    assert At(g, p) == if CarriesNoBurden(rows[p]) then Err(KeyError) else Ok(rows[p]);
  }

  /** A later PRODUCTS row `k`: the frame has no marker left, so the row is negated, or enlarges the frame if it was dropped. */
  lemma StepPhaseTwo(rows: seq<Entry>, products: seq<Option<string>>, k: nat)
    requires k < |rows| && IsProducts(rows[k]) && CountProducts(rows[..k]) >= 2
    ensures Step(PhaseTwo(rows, products, k), k, rows[k]) ==
      if CarriesNoBurden(rows[k]) then Err(EnlargedFrame) else Ok(PhaseTwo(rows, products, k + 1))
  {
    PrefixStep(rows, k);
    var f := FrameFrom(rows, k, 0, true, 2);
    FrameMarker(rows, k, 0, true, 2);
    assert !HasNoBurden(f);
    if CarriesNoBurden(rows[k]) {
      AtFrame(rows, k, 0, true, 2, k);
      SetAtNeedsKey(f, k, Negated);
    } else {
      assert products + ProductNames(rows[..k + 1]) == (products + ProductNames(rows[..k])) + [rows[k].flowName];
      var g := FrameFrom(rows, k + 1, 0, true, 2);
      SetFrame(rows, k, 0, true, 2);
      assert SetAt(f, k, Negated) == Ok(g);
      DropFrame(rows, k + 1, 0, true, 2);
      assert DropNoBurden(g) == g;
      AtFrame(rows, k + 1, 0, true, 2, k);
      assert At(g, k) == Ok(Negated(rows[k]));
    }
  }

  lemma NextIteration(rows: seq<Entry>, products: seq<Option<string>>, k: nat, st: State)
    requires k < |rows| && ProcessUpTo(rows, products, k) == Ok(st)
    ensures ProcessUpTo(rows, products, k + 1) == Step(st, k, rows[k])
  {
  }

  /** The iteration on the second PRODUCTS row `p` enters the second phase. */
  lemma EnterPhaseTwo(rows: seq<Entry>, products: seq<Option<string>>, p: nat)
    requires p < |rows| && IsProducts(rows[p]) && CountProducts(rows[..p]) == 1 && !CarriesNoBurden(rows[p])
    requires exists l | 0 <= l < |rows| :: CarriesNoBurden(rows[l])
    ensures ProcessUpTo(rows, products, p + 1) == Ok(PhaseTwo(rows, products, p + 1))
  {
    PhaseOneHolds(rows, products, p);
    NextIteration(rows, products, p, PhaseOne(rows, products, p));
    StepSecondProduct(rows, products, p);
  }

  /** An iteration after the second PRODUCTS row keeps the loop in the second phase. */
  lemma StayInPhaseTwo(rows: seq<Entry>, products: seq<Option<string>>, p: nat, k: nat)
    requires p < k < |rows| && IsProducts(rows[p]) && CountProducts(rows[..p]) == 1
    requires IsProducts(rows[k]) ==> !CarriesNoBurden(rows[k])
    requires ProcessUpTo(rows, products, k) == Ok(PhaseTwo(rows, products, k))
    ensures ProcessUpTo(rows, products, k + 1) == Ok(PhaseTwo(rows, products, k + 1))
  {
    NextIteration(rows, products, k, PhaseTwo(rows, products, k));
    if IsProducts(rows[k]) {
      CountGrows(rows, p, k);
      StepPhaseTwo(rows, products, k);
    } else {
      StepNonProduct(rows, products, k, true, 2);
    }
  }

  /** From the second PRODUCTS row `p` on, the loop stays in the second phase while no later PRODUCTS row carries the marker. */
  lemma {:induction false} PhaseTwoHolds(rows: seq<Entry>, products: seq<Option<string>>, p: nat, k: nat)
    requires p < k <= |rows| && IsProducts(rows[p]) && CountProducts(rows[..p]) == 1
    requires exists l | 0 <= l < |rows| :: CarriesNoBurden(rows[l])
    requires forall q | p <= q < k :: IsProducts(rows[q]) ==> !CarriesNoBurden(rows[q])
    ensures ProcessUpTo(rows, products, k) == Ok(PhaseTwo(rows, products, k))
  {
    if k - 1 == p {
      EnterPhaseTwo(rows, products, p);
    } else {
      PhaseTwoHolds(rows, products, p, k - 1);
      StayInPhaseTwo(rows, products, p, k - 1);
    }
  }

  /**
   Without a 'no avoided burden' row, or with fewer than two PRODUCTS rows,
   every row stays, and each PRODUCTS row after the first becomes an INPUTS
   row with its quantity negated. The product list grows by the FLOW NAME of
   every PRODUCTS row, in order.
   */
  lemma ProcessWithoutMarker(rows: seq<Entry>, products: seq<Option<string>>)
    requires CountProducts(rows) <= 1 || forall l | 0 <= l < |rows| :: !CarriesNoBurden(rows[l])
    ensures ProcessResult(rows, products).Ok?
    ensures var (frame, names) := ProcessResult(rows, products).value;
      && names == products + ProductNames(rows)
      && |frame| == |rows|
      && forall j | 0 <= j < |rows| :: frame[j] ==
           Row(j, if IsProducts(rows[j]) && CountProducts(rows[..j]) >= 1 then Negated(rows[j]) else rows[j])
  {
    assert rows[..|rows|] == rows;
    PhaseOneHolds(rows, products, |rows|);
    FrameKeepsAll(rows, |rows|, 0, 1);
  }

  /**
   With a 'no avoided burden' row and a second PRODUCTS row `p` that does not
   carry it: the marker rows are dropped, every PRODUCTS row after `p` is
   negated, provided none of them carries the marker either, and every other
   row (the INPUTS and EMISSIONS rows, the first PRODUCTS row and `p` itself)
   stays under its own key unchanged.
   */
  lemma ProcessWithMarker(rows: seq<Entry>, products: seq<Option<string>>, p: nat)
    requires p < |rows| && IsProducts(rows[p]) && CountProducts(rows[..p]) == 1
    requires exists l | 0 <= l < |rows| :: CarriesNoBurden(rows[l])
    requires forall q | p <= q < |rows| :: IsProducts(rows[q]) ==> !CarriesNoBurden(rows[q])
    ensures ProcessResult(rows, products).Ok?
    ensures var (frame, names) := ProcessResult(rows, products).value;
      && names == products + ProductNames(rows)
      && !HasNoBurden(frame)
      && forall l | 0 <= l < |rows| :: At(frame, l) ==
           if CarriesNoBurden(rows[l]) then Err(KeyError)
           else if p < l && IsProducts(rows[l]) then Ok(Negated(rows[l]))
           else Ok(rows[l])
  {
    assert rows[..|rows|] == rows;
    PhaseTwoHolds(rows, products, p, |rows|);
    var frame := FrameFrom(rows, |rows|, 0, true, 2);
    FrameMarker(rows, |rows|, 0, true, 2);
    forall l | 0 <= l < |rows|
      ensures At(frame, l) ==
        if CarriesNoBurden(rows[l]) then Err(KeyError)
        else if p < l && IsProducts(rows[l]) then Ok(Negated(rows[l]))
        else Ok(rows[l])
    {
      AtFrame(rows, |rows|, 0, true, 2, l);
      if l < p {
        CountGrows(rows, l, p);
      } else if p < l {
        CountGrows(rows, p, l);
      }
    }
  }

  /** A second PRODUCTS row that itself carries the marker is dropped before its FLOW NAME is read, which raises. */
  lemma ByProductWithMarkerRaises(rows: seq<Entry>, products: seq<Option<string>>, p: nat)
    requires p < |rows| && IsProducts(rows[p]) && CountProducts(rows[..p]) == 1 && CarriesNoBurden(rows[p])
    ensures ProcessResult(rows, products) == Err(KeyError)
  {
    PhaseOneHolds(rows, products, p);
    StepSecondProduct(rows, products, p);
    ErrorPersists(rows, products, p + 1, |rows|);
  }

  // ---------------------------------------------------------------------
  // The Brightway template grid

  /** One spreadsheet cell. */
  datatype Cell = Blank | Text(text: string) | Number(value: real)

  /** A sheet read without a header: `width` columns, one `seq` per row. */
  datatype Grid = Grid(width: nat, cells: seq<seq<Cell>>)

  predicate Rectangular(g: Grid) {
    forall i | 0 <= i < |g.cells| :: |g.cells[i]| == g.width
  }

  function TextCell(s: Option<string>): Cell {
    match s
    case None => Blank
    case Some(v) => Text(v)
  }

  function NumberCell(x: Option<real>): Cell {
    match x
    case None => Blank
    case Some(v) => Number(v)
  }

  function Min(a: int, b: int): int {
    if a <= b then a else b
  }

  /** `g.iloc[i, j] = v` */
  function SetCell(g: Grid, i: nat, j: nat, v: Cell): (r: Grid)
    requires Rectangular(g) && i < |g.cells| && j < g.width
    ensures Rectangular(r) && r.width == g.width && |r.cells| == |g.cells|
    ensures forall m, n | 0 <= m < |r.cells| && 0 <= n < r.width :: r.cells[m][n] == if m == i && n == j then v else g.cells[m][n]
  {
    Grid(g.width, g.cells[i := g.cells[i][j := v]])
  }

  /** The two entries of a sheet's DESCRIPTION block that reach the template. */
  datatype Description = Description(processName: string, text: Cell)

  /**
   A sheet's DESCRIPTION block as `.loc[label, columns[0]]` sees it: whether
   it has a value column at all, and the value under each of the two labels,
   `None` where the label is not in the index.
   */
  datatype DescriptionSheet = DescriptionSheet(hasValues: bool, processName: Option<string>, text: Option<Cell>)

  /** Both labels are present and there is a column to read them from. */
  predicate Readable(d: DescriptionSheet) {
    d.hasValues && d.processName.Some? && d.text.Some?
  }

  /** The template has the rows and the column the header writes reach. */
  predicate Fits(template: Grid) {
    |template.cells| >= 13 && template.width >= 2
  }

  function Found(d: DescriptionSheet): Description
    requires Readable(d)
  {
    Description(d.processName.value, d.text.value)
  }

  /** The value `description_to_bw_input_sheet` writes into column 1 of row `i`, if any. */
  function HeaderCell(i: nat, d: Description, first: Entry, database: string): Option<Cell> {
    if i == 0 || i == 1 || i == 5 then Some(Text(database))
    else if i == 4 then Some(Text(d.processName))
    else if i == 6 then Some(Text(database + "-" + d.processName))
    else if i == 7 then Some(d.text)
    else if i == 8 then Some(Blank)
    else if i == 9 then Some(TextCell(first.location))
    else if i == 12 then Some(Text(first.unit))
    else None
  }

  /** The cell writes of `description_to_bw_input_sheet`, on the copy of the template. */
  method FillHeader(template: Grid, description: Description, first: Entry, database: string) returns (g: Grid)
    requires Rectangular(template) && |template.cells| >= 13 && template.width >= 2
    ensures Rectangular(g) && g.width == template.width && |g.cells| == |template.cells|
    ensures forall i, j | 0 <= i < |g.cells| && 0 <= j < g.width ::
      g.cells[i][j] == if j == 1 && HeaderCell(i, description, first, database).Some?
        then HeaderCell(i, description, first, database).value else template.cells[i][j]
  {
    g := template;
    g := SetCell(g, 0, 1, Text(database));
    g := SetCell(g, 1, 1, Text(database));
    g := SetCell(g, 4, 1, Text(description.processName));
    g := SetCell(g, 5, 1, Text(database));
    g := SetCell(g, 6, 1, Text(database + "-" + description.processName));
    g := SetCell(g, 7, 1, description.text);
    g := SetCell(g, 8, 1, Blank);
    g := SetCell(g, 9, 1, TextCell(first.location));
    g := SetCell(g, 12, 1, Text(first.unit));
  }

  /**
   `description_to_bw_input_sheet`: fills a copy of the template from the
   sheet's description and first entry, keeps its first 15 rows and stores it
   under `sheetName`. It raises KeyError for a missing sheet or label, and
   IndexError for an empty sheet, a description without a value column or a
   template too small for the cells written; where both could arise, the one
   the statement order meets first.
   */
  method DescriptionToBwInputSheet(
    template: Grid, sheets: map<string, Grid>, descriptions: map<string, DescriptionSheet>,
    lci: map<string, seq<Entry>>, sheetName: string, database: string)
    returns (r: Result<map<string, Grid>>)
    requires Rectangular(template)
    ensures r.Ok? <==>
      sheetName in descriptions && sheetName in lci && |lci[sheetName]| > 0 &&
      Readable(descriptions[sheetName]) && Fits(template)
    ensures r.Err? ==> r.error == KeyError || r.error == IndexError
    ensures sheetName !in descriptions || sheetName !in lci ==> r == Err(KeyError)
    ensures sheetName in descriptions && sheetName in lci ==> (|lci[sheetName]| == 0 ==> r == Err(IndexError))
    ensures sheetName in descriptions && sheetName in lci && |lci[sheetName]| > 0 && Fits(template) ==>
      (!descriptions[sheetName].hasValues ==> r == Err(IndexError))
    ensures sheetName in descriptions && sheetName in lci && |lci[sheetName]| > 0 && Fits(template) ==>
      (descriptions[sheetName].hasValues && !Readable(descriptions[sheetName]) ==> r == Err(KeyError))
    ensures sheetName in descriptions && sheetName in lci && |lci[sheetName]| > 0 ==>
      (Readable(descriptions[sheetName]) && !Fits(template) ==> r == Err(IndexError))
    ensures r.Ok? ==> r.value.Keys == sheets.Keys + {sheetName}
    ensures r.Ok? ==> forall n | n in sheets && n != sheetName :: r.value[n] == sheets[n]
    ensures r.Ok? ==>
      var g := r.value[sheetName];
      var header := (i: nat) => HeaderCell(i, Found(descriptions[sheetName]), lci[sheetName][0], database);
      && Rectangular(g) && g.width == template.width && |g.cells| == Min(15, |template.cells|)
      && forall i, j | 0 <= i < |g.cells| && 0 <= j < g.width ::
           g.cells[i][j] == if j == 1 && header(i).Some? then header(i).value else template.cells[i][j]
  {
    if sheetName !in descriptions || sheetName !in lci {
      return Err(KeyError);
    }
    var sheet := descriptions[sheetName];
    var rows := lci[sheetName];
    if |rows| == 0 {                                    // `.iloc[0]`
      return Err(IndexError);
    }
    if |template.cells| < 2 || template.width < 2 {     // the writes to rows 0 and 1
      return Err(IndexError);
    }
    if !sheet.hasValues {                               // `columns[0]`
      return Err(IndexError);
    }
    if sheet.processName.None? {                        // `.loc['Process name', ...]`
      return Err(KeyError);
    }
    if |template.cells| < 7 {                           // the writes to rows 4 to 6
      return Err(IndexError);
    }
    if sheet.text.None? {                               // `.loc['Description of the process:', ...]`
      return Err(KeyError);
    }
    if |template.cells| < 13 {                          // the writes to rows 7 to 12
      return Err(IndexError);
    }
    var g := FillHeader(template, Found(sheet), rows[0], database);
    g := Grid(g.width, g.cells[..Min(15, |g.cells|)]);
    r := Ok(sheets[sheetName := g]);
  }

  // ---------------------------------------------------------------------
  // merge_sheets

  /**
   The columns of a transformed sheet from 'name' onward, in the order the
   per-sheet transformation creates them: name, amount, unit, database,
   categories, location, type and the six uncertainty columns.
   */
  function OutputRow(e: Entry): (r: seq<Cell>)
    ensures |r| == OutputWidth
  {
    [Text(e.name), Number(e.amount), Text(e.unit), TextCell(e.database), TextCell(e.categories),
     TextCell(e.location), Text(e.kind),
     NumberCell(e.uncertainty.distribution), NumberCell(e.uncertainty.loc), NumberCell(e.uncertainty.scale),
     NumberCell(e.uncertainty.shape), NumberCell(e.uncertainty.minimum), NumberCell(e.uncertainty.maximum)]
  }

  const OutputWidth := 13

  function OutputRows(rows: seq<Entry>): (r: seq<seq<Cell>>)
    ensures |r| == |rows|
    ensures forall k | 0 <= k < |rows| :: r[k] == OutputRow(rows[k])
  {
    seq(|rows|, k requires 0 <= k < |rows| => OutputRow(rows[k]))
  }

  /** The rows one sheet contributes: its whole template when it comes first, else the template from row 3 on; then its entries. */
  function Block(first: bool, template: Grid, rows: seq<Entry>): seq<seq<Cell>> {
    (if first then template.cells else template.cells[Min(3, |template.cells|)..]) + OutputRows(rows)
  }

  /** The first failure of `merge_sheets`, in sheet order: a missing sheet, or a template whose width differs from the entries'. */
  function MergeError(names: seq<string>, lci: map<string, seq<Entry>>, sheets: map<string, Grid>): Option<Error> {
    if names == [] then None
    else
      var last := names[|names| - 1];
      match MergeError(names[..|names| - 1], lci, sheets)
      case Some(x) => Some(x)
      case None =>
        if last !in lci || last !in sheets then Some(KeyError)
        else if sheets[last].width != OutputWidth then Some(ValueError)
        else None
  }

  lemma {:induction false} NoMergeError(names: seq<string>, lci: map<string, seq<Entry>>, sheets: map<string, Grid>)
    requires MergeError(names, lci, sheets).None?
    ensures forall n | n in names :: n in lci && n in sheets && sheets[n].width == OutputWidth
  {
    if names != [] {
      NoMergeError(names[..|names| - 1], lci, sheets);
      assert names == names[..|names| - 1] + [names[|names| - 1]];
    }
  }

  /** The rows of the merged grid. */
  function Merged(names: seq<string>, lci: map<string, seq<Entry>>, sheets: map<string, Grid>): seq<seq<Cell>>
    requires forall n | n in names :: n in lci && n in sheets
  {
    if names == [] then []
    else
      var last := names[|names| - 1];
      Merged(names[..|names| - 1], lci, sheets) + Block(|names| == 1, sheets[last], lci[last])
  }

  /** `merge_sheets`; `None` when there are no sheets. */
  method MergeSheets(lci: map<string, seq<Entry>>, sheets: map<string, Grid>, names: seq<string>)
    returns (r: Result<Option<Grid>>)
    ensures r.Err? <==> MergeError(names, lci, sheets).Some?
    ensures r.Err? ==> r.error == MergeError(names, lci, sheets).value
    ensures r.Ok? && names == [] ==> r.value == None
    ensures r.Ok? ==> forall n | n in names :: n in lci && n in sheets
    ensures r.Ok? && names != [] ==> r.value == Some(Grid(OutputWidth, Merged(names, lci, sheets)))
  {
    var isFirstIteration := true;
    var isFirstIteration2 := true;
    var finalSheet: Option<Grid> := None;
    for i := 0 to |names|
      invariant MergeError(names[..i], lci, sheets).None?
      invariant isFirstIteration <==> i == 0
      invariant isFirstIteration2 <==> i == 0
      invariant forall n | n in names[..i] :: n in lci && n in sheets
      invariant finalSheet == if i == 0 then None else Some(Grid(OutputWidth, Merged(names[..i], lci, sheets)))
    {
      var name := names[i];
      assert names[..i + 1][..i] == names[..i] && names[..i + 1][i] == name;
      if name !in lci || name !in sheets {
        MergeErrorPersists(names, lci, sheets, i + 1);
        return Err(KeyError);
      }
      var selected := OutputRows(lci[name]);
      var template: seq<seq<Cell>>;
      if isFirstIteration {
        template := sheets[name].cells;
        isFirstIteration := false;
      } else {
        template := sheets[name].cells[Min(3, |sheets[name].cells|)..];
      }
      if sheets[name].width != OutputWidth {
        MergeErrorPersists(names, lci, sheets, i + 1);
        return Err(ValueError);
      }
      var block := template + selected;
      assert block == Block(i == 0, sheets[name], lci[name]);
      assert forall n | n in names[..i + 1] :: n in names[..i] || n == name;
      assert Merged(names[..i + 1], lci, sheets) == Merged(names[..i], lci, sheets) + block;
      if isFirstIteration2 {
        finalSheet := Some(Grid(OutputWidth, block));
        isFirstIteration2 := false;
        assert Merged(names[..i], lci, sheets) == [];
        assert [] + block == block;
      } else {
        finalSheet := Some(Grid(OutputWidth, finalSheet.value.cells + block));
      }
    }
    assert names[..|names|] == names;
    r := Ok(finalSheet);
  }

  lemma {:induction false} MergeErrorPersists(names: seq<string>, lci: map<string, seq<Entry>>, sheets: map<string, Grid>, k: nat)
    requires k <= |names| && MergeError(names[..k], lci, sheets).Some?
    ensures MergeError(names, lci, sheets) == MergeError(names[..k], lci, sheets)
    decreases |names| - k
  {
    if k < |names| {
      assert names[..k + 1][..k] == names[..k];
      MergeErrorPersists(names, lci, sheets, k + 1);
    } else {
      assert names[..k] == names;
    }
  }

  /** The number of rows `merge_sheets` produces: the parts of every sheet added up. */
  function MergedRowCount(names: seq<string>, lci: map<string, seq<Entry>>, sheets: map<string, Grid>): nat
    requires forall n | n in names :: n in lci && n in sheets
  {
    if names == [] then 0
    else
      var n := names[|names| - 1];
      var templateRows := if |names| == 1 then |sheets[n].cells| else |sheets[n].cells| - Min(3, |sheets[n].cells|);
      MergedRowCount(names[..|names| - 1], lci, sheets) + templateRows + |lci[n]|
  }

  /**
   The merged grid starts with the first sheet's whole template and its
   entries, has one row per part, and every row is as wide as the entries
   when the templates are.
   */
  lemma {:induction false} MergedShape(names: seq<string>, lci: map<string, seq<Entry>>, sheets: map<string, Grid>)
    requires forall n | n in names :: n in lci && n in sheets && Rectangular(sheets[n]) && sheets[n].width == OutputWidth
    ensures |Merged(names, lci, sheets)| == MergedRowCount(names, lci, sheets)
    ensures forall i | 0 <= i < |Merged(names, lci, sheets)| :: |Merged(names, lci, sheets)[i]| == OutputWidth
    ensures names != [] ==> |Merged(names, lci, sheets)| >= |sheets[names[0]].cells| + |lci[names[0]]|
    ensures names != [] ==>
      (Merged(names, lci, sheets)[..|sheets[names[0]].cells| + |lci[names[0]]|] == sheets[names[0]].cells + OutputRows(lci[names[0]]))
  {
    if names != [] {
      var prefix := names[..|names| - 1];
      var n := names[|names| - 1];
      assert forall m | m in prefix :: m in names;
      MergedShape(prefix, lci, sheets);
      var b := Block(|names| == 1, sheets[n], lci[n]);
      assert forall i | 0 <= i < |b| :: |b[i]| == OutputWidth;
      if |names| > 1 {
        assert prefix[0] == names[0];
        var m := Merged(prefix, lci, sheets);
        assert Merged(names, lci, sheets) == m + b;
        MergedHasFirst(prefix, lci, sheets);
        var l := |sheets[names[0]].cells| + |lci[names[0]]|;
        assert (m + b)[..l] == m[..l];
      }
    }
  }

  lemma {:induction false} MergedHasFirst(names: seq<string>, lci: map<string, seq<Entry>>, sheets: map<string, Grid>)
    requires names != [] && forall n | n in names :: n in lci && n in sheets
    ensures |Merged(names, lci, sheets)| >= |sheets[names[0]].cells| + |lci[names[0]]|
  {
    if |names| > 1 {
      var prefix := names[..|names| - 1];
      assert forall m | m in prefix :: m in names;
      assert prefix[0] == names[0];
      MergedHasFirst(prefix, lci, sheets);
    }
  }
}
