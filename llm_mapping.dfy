/**
 The language-model route of fauldier/llm_mapping.py: splitting a sheet into
 its product row, its internal activities and the rows sent to the model;
 the numbered and bulleted prompt texts; reading the numbered answer back
 into one mapping per input; and splitting each mapping into the four
 columns name, ORIGIN, UNIT and QUANTITY. The request to the model itself
 is not modelled: its answer text is a parameter.
 */
module LlmMapping {
  import opened Wrappers
  import opened Text
  import opened BasicMapping
  import opened Processing

  // ---------------------------------------------------------------------
  // transform_data_for_LLM

  /** A row whose name is one of the sheet's own products (`name.isin(product_list)`). */
  predicate IsInternal(e: Entry, productList: seq<Option<string>>) {
    Some(e.name) in productList
  }

  /** The position of the first row whose marker contains "PRODUCTS" in any case. */
  function FirstProductIndex(rows: seq<Entry>): (r: Option<nat>)
    ensures r.Some? ==> r.value < |rows| && IsProductRow(rows[r.value])
    ensures r.Some? ==> forall j | 0 <= j < r.value :: !IsProductRow(rows[j])
    ensures r.None? ==> forall j | 0 <= j < |rows| :: !IsProductRow(rows[j])
  {
    if rows == [] then None
    else if IsProductRow(rows[0]) then Some(0)
    else match FirstProductIndex(rows[1..])
      case None => None
      case Some(i) => Some(i + 1)
  }

  /** `head(1)` of the product rows: the first of them, or nothing. */
  function ProductRow(rows: seq<Entry>): seq<Entry> {
    match FirstProductIndex(rows)
    case None => []
    case Some(i) => [rows[i]]
  }

  /** The rows, in order, that are internal activities (`internal`) or that are not. */
  function Keep(rows: seq<Entry>, productList: seq<Option<string>>, internal: bool): seq<Entry>
    decreases |rows|
  {
    if rows == [] then []
    else if IsInternal(rows[0], productList) == internal then [rows[0]] + Keep(rows[1..], productList, internal)
    else Keep(rows[1..], productList, internal)
  }

  /** The two selections split the sheet: each row lands in exactly one of them. */
  lemma {:induction false} KeepPartitions(rows: seq<Entry>, productList: seq<Option<string>>)
    ensures multiset(Keep(rows, productList, true)) + multiset(Keep(rows, productList, false)) == multiset(rows)
    decreases |rows|
  {
    if rows != [] {
      KeepPartitions(rows[1..], productList);
      assert rows == [rows[0]] + rows[1..];
    }
  }

  /** A row is kept exactly when it is in the sheet and on the selected side. */
  lemma {:induction false} KeepMembers(rows: seq<Entry>, productList: seq<Option<string>>, internal: bool)
    ensures forall e :: e in Keep(rows, productList, internal) <==> e in rows && IsInternal(e, productList) == internal
    decreases |rows|
  {
    if rows != [] {
      KeepMembers(rows[1..], productList, internal);
      assert rows == [rows[0]] + rows[1..];
    }
  }

  /** One row as the model sees it: `name | ORIGIN  | UNIT | QUANTITY`, with `fmt` as Python's float text. */
  function InputLine(e: Entry, fmt: real -> string): string {
    e.name + " | " + CellString(e.origin) + "  | " + e.rawUnit + " | " + fmt(e.quantity)
  }

  /** What `transform_data_for_LLM` returns. */
  datatype Prepared = Prepared(
    userInputs: seq<string>, productRow: seq<Entry>, internal: seq<Entry>, remainder: seq<Entry>)

  function TransformDataForLlm(sheet: seq<Entry>, productList: seq<Option<string>>, fmt: real -> string): (r: Prepared)
    ensures |r.userInputs| == |r.remainder|
    ensures forall i | 0 <= i < |r.remainder| :: r.userInputs[i] == InputLine(r.remainder[i], fmt)
  {
    var remainder := Keep(sheet, productList, false);
    Prepared(
      seq(|remainder|, i requires 0 <= i < |remainder| => InputLine(remainder[i], fmt)),
      ProductRow(sheet),
      Keep(sheet, productList, true),
      remainder)
  }

  /**
   The internal activities and the rows sent to the model split the sheet; the
   product row is the first row marked PRODUCTS, and it is sent to the model as
   well unless its name is a product of the sheet.
   */
  lemma TransformPartitions(sheet: seq<Entry>, productList: seq<Option<string>>, fmt: real -> string)
    ensures var r := TransformDataForLlm(sheet, productList, fmt);
      && multiset(r.internal) + multiset(r.remainder) == multiset(sheet)
      && (forall e :: e in r.internal <==> e in sheet && IsInternal(e, productList))
      && (forall e :: e in r.remainder <==> e in sheet && !IsInternal(e, productList))
      && |r.productRow| <= 1
      && (r.productRow == [] <==> forall j | 0 <= j < |sheet| :: !IsProductRow(sheet[j]))
      && (forall e | e in r.productRow :: e in sheet && IsProductRow(e))
      && (forall e | e in r.productRow && !IsInternal(e, productList) :: e in r.remainder)
  {
    KeepPartitions(sheet, productList);
    KeepMembers(sheet, productList, true);
    KeepMembers(sheet, productList, false);
  }

  // ---------------------------------------------------------------------
  // classify_input_batch

  function Bullets(items: seq<string>): (r: seq<string>)
    ensures |r| == |items|
  {
    seq(|items|, i requires 0 <= i < |items| => "- " + items[i])
  }

  /** The input lines numbered from 1: "1. first", "2. second", ... */
  function NumberedLines(inputs: seq<string>): (r: seq<string>)
    ensures |r| == |inputs|
  {
    seq(|inputs|, i requires 0 <= i < |inputs| => NatToString(i + 1) + ". " + inputs[i])
  }

  /** The three prompt texts: the activity list, the biosphere list and the numbered inputs. */
  function ClassifyInputBatch(userInputs: seq<string>, activities: seq<string>, biosphereFlows: seq<string>)
    : (string, string, string)
  {
    (Join(Bullets(activities), "\n"), Join(Bullets(biosphereFlows), "\n"), Join(NumberedLines(userInputs), "\n"))
  }

  lemma PrefixedNoLineBreaks(p: string, s: string)
    requires NoLineBreaks(p) && NoLineBreaks(s)
    ensures NoLineBreaks(p + s)
  {
    forall i | 0 <= i < |p + s| ensures !IsLineBreak((p + s)[i]) {
      if i < |p| { assert (p + s)[i] == p[i]; } else { assert (p + s)[i] == s[i - |p|]; }
    }
  }

  /** Each bulleted list reads back, line by line, as its bullets. */
  lemma BulletedLines(items: seq<string>)
    requires forall i | 0 <= i < |items| :: NoLineBreaks(items[i])
    ensures Lines(Join(Bullets(items), "\n")) == Bullets(items)
  {
    var b := Bullets(items);
    forall k | 0 <= k < |b| ensures NoLineBreaks(b[k]) {
      PrefixedNoLineBreaks("- ", items[k]);
    }
    LinesOfJoin(b);
  }

  // ---------------------------------------------------------------------
  // The answer parser at the end of prompt_LLM

  /** What one answer line contributes: a 0-based index and the stripped text after its first '.'. */
  function LineEntry(line: string): Option<(int, string)> {
    match Find(line, ".")
    case None => None
    case Some(dot) => NumberedItem(line[..dot], line[dot + 1..])
  }

  /** The `try` block: `int(num.strip()) - 1` and `process.strip()`, or nothing where `int` raises ValueError. */
  function NumberedItem(num: string, process: string): Option<(int, string)> {
    match ParseInt(Strip(num))
    case None => None
    case Some(n) => Some((n - 1, Strip(process)))
  }

  lemma LineWithoutDot(line: string)
    requires Find(line, ".").None?
    ensures LineEntry(line) == None
  {
  }

  lemma LineAtDot(line: string, dot: nat)
    requires Find(line, ".") == Some(dot)
    ensures dot < |line| && LineEntry(line) == NumberedItem(line[..dot], line[dot + 1..])
  {
  }

  lemma ItemNumbered(num: string, process: string, n: int)
    requires ParseInt(Strip(num)) == Some(n)
    ensures NumberedItem(num, process) == Some((n - 1, Strip(process)))
  {
  }

  /** One assignment `results[idx] = text`, or none for a line that was skipped. */
  function Record(results: map<int, string>, entry: Option<(int, string)>): map<int, string> {
    match entry
    case None => results
    case Some(e) => results[e.0 := e.1]
  }

  /** The dictionary after the given line entries, later entries overwriting earlier ones. */
  function Fold(entries: seq<Option<(int, string)>>): map<int, string>
    decreases |entries|
  {
    if entries == [] then map[] else Record(Fold(entries[..|entries| - 1]), entries[|entries| - 1])
  }

  function Entries(lines: seq<string>): (r: seq<Option<(int, string)>>)
    ensures |r| == |lines|
  {
    seq(|lines|, i requires 0 <= i < |lines| => LineEntry(lines[i]))
  }

  /** The `results` dictionary after the given answer lines. */
  function ParsedResults(lines: seq<string>): map<int, string> {
    Fold(Entries(lines))
  }

  /**
   The returned list: the parsed text for each input, or the input itself where
   none was parsed or the text reads "unknown" in any case (a missing index
   defaults to "unknown", which folds to itself).
   */
  function Resolve(results: map<int, string>, userInputs: seq<string>): (r: seq<string>)
    ensures |r| == |userInputs|
  {
    seq(|userInputs|, i requires 0 <= i < |userInputs| =>
      if i in results && Lower(results[i]) != "unknown" then results[i] else userInputs[i])
  }

  /** `dot` is the position of the first '.' of `line`, where `split(".", 1)` cuts it. */
  predicate FirstDot(line: string, dot: int) {
    0 <= dot < |line| && line[dot] == '.' && '.' !in line[..dot]
  }

  /**
   What `entry` says about `line`: a line without a '.' is skipped.
   Otherwise the line is cut at its first '.', and it contributes an entry
   exactly when the stripped text before the cut reads as an integer: that
   integer minus one, with the stripped text after the cut.
   */
  predicate ReadsAs(line: string, entry: Option<(int, string)>) {
    && ('.' !in line ==> entry.None?)
    && ('.' in line ==> exists dot | 0 <= dot < |line| && FirstDot(line, dot) :: CutAt(line, dot, entry))
  }

  /** `entry` is what the text before and after the '.' at `dot` give. */
  predicate CutAt(line: string, dot: nat, entry: Option<(int, string)>)
    requires dot < |line|
  {
    && (entry.Some? <==> ParseInt(Strip(line[..dot])).Some?)
    && (entry.Some? ==> ParseInt(Strip(line[..dot])) == Some(entry.value.0 + 1) && entry.value.1 == Strip(line[dot + 1..]))
  }

  /** The effect of one answer line, as the loop body computes it. */
  method ParseLine(line: string) returns (entry: Option<(int, string)>)
    ensures entry == LineEntry(line) && ReadsAs(line, entry)
  {
    entry := None;
    var found := Find(line, ".");   // `"." in line`, and where the first '.' is
    if found.Some? {
      var dot := found.value;
      LineAtDot(line, dot);
      entry := NumberedItem(line[..dot], line[dot + 1..]);
    } else {
      LineWithoutDot(line);
    }
    LineEntryReads(line);
  }

  /** `Find` locates the first '.', and finds none exactly when the line has no '.'. */
  lemma FindFirstDot(line: string)
    ensures Find(line, ".").Some? ==> FirstDot(line, Find(line, ".").value)
    ensures Find(line, ".").None? ==> '.' !in line
  {
    FindSpec(line, ".");
    forall i | 0 <= i < |line| ensures Occurs(line, ".", i) <==> line[i] == '.' {
      assert line[i..i + 1] == [line[i]];
    }
    if Find(line, ".").Some? {
      var dot := Find(line, ".").value;
      forall i | 0 <= i < dot ensures line[..dot][i] != '.' {
        assert !Occurs(line, ".", i);
      }
    }
  }

  /** A line has at most one first '.'. */
  lemma FirstDotUnique(line: string, a: int, b: int)
    requires FirstDot(line, a) && FirstDot(line, b)
    ensures a == b
  {
  }

  /** The entry of a line cut at its first '.'. */
  lemma LineEntryCut(line: string)
    ensures '.' !in line ==> LineEntry(line).None?
    ensures forall dot | FirstDot(line, dot) ::
      LineEntry(line) == NumberedItem(line[..dot], line[dot + 1..])
  {
    FindFirstDot(line);
    forall dot | FirstDot(line, dot) ensures LineEntry(line) == NumberedItem(line[..dot], line[dot + 1..]) {
      assert Find(line, ".").Some?;
      FirstDotUnique(line, dot, Find(line, ".").value);
    }
  }

  /** Every line reads as its entry. */
  lemma LineEntryReads(line: string)
    ensures ReadsAs(line, LineEntry(line))
  {
    LineEntryCut(line);
    FindFirstDot(line);
    if '.' in line {
      var dot := Find(line, ".").value;
      assert CutAt(line, dot, LineEntry(line));
    }
  }



  /** One iteration of the loop: the line's entry, if any, assigned into `results`. */
  method RecordLine(results: map<int, string>, line: string) returns (next: map<int, string>)
    ensures next == Record(results, LineEntry(line))
    ensures '.' !in line ==> next == results
  {
    var entry := ParseLine(line);
    next := Record(results, entry);
  }

  /** The loop of `prompt_LLM` over the stripped answer text. */
  method ParseResponse(outputText: string, userInputs: seq<string>) returns (mapped: seq<string>)
    ensures mapped == Resolve(ParsedResults(Lines(outputText)), userInputs)
  {
    var lines := Lines(outputText);
    ghost var entries := Entries(lines);
    var results: map<int, string> := map[];
    for k := 0 to |lines|
      invariant results == Fold(entries[..k])
    {
      assert entries[..k + 1][..k] == entries[..k];
      results := RecordLine(results, lines[k]);
    }
    assert entries[..|lines|] == entries;
    mapped := Resolve(results, userInputs);
  }

  /** The entry numbers the index `idx`. */
  predicate Numbers(entry: Option<(int, string)>, idx: int) {
    entry.Some? && entry.value.0 == idx
  }

  /** An index has a result exactly when some line numbers it. */
  lemma {:induction false} FoldKeys(entries: seq<Option<(int, string)>>, idx: int)
    ensures idx in Fold(entries) <==> exists j | 0 <= j < |entries| :: Numbers(entries[j], idx)
    decreases |entries|
  {
    if entries != [] {
      var init := entries[..|entries| - 1];
      FoldKeys(init, idx);
      if exists j | 0 <= j < |init| :: Numbers(init[j], idx) {
        var j :| 0 <= j < |init| && Numbers(init[j], idx);
        assert entries[j] == init[j];
      }
      if exists j | 0 <= j < |entries| :: Numbers(entries[j], idx) {
        var j :| 0 <= j < |entries| && Numbers(entries[j], idx);
        if j < |init| { assert init[j] == entries[j]; }
      }
    }
  }

  /** The result for an index is the text of the last line that numbers it. */
  lemma {:induction false} LastEntryWins(entries: seq<Option<(int, string)>>, j: nat, idx: int)
    requires j < |entries| && Numbers(entries[j], idx)
    requires forall k | j < k < |entries| :: !Numbers(entries[k], idx)
    ensures idx in Fold(entries) && Fold(entries)[idx] == entries[j].value.1
    decreases |entries|
  {
    var init := entries[..|entries| - 1];
    if j < |entries| - 1 {
      assert init[j] == entries[j];
      forall k | j < k < |init| ensures !Numbers(init[k], idx) {
        assert init[k] == entries[k];
      }
      LastEntryWins(init, j, idx);
    }
  }

  /** Every text that a line records is stripped. */
  lemma LineEntryStripped(line: string)
    ensures LineEntry(line).Some? ==> Strip(LineEntry(line).value.1) == LineEntry(line).value.1
  {
    match Find(line, ".")
    case None => LineWithoutDot(line);
    case Some(dot) =>
      LineAtDot(line, dot);
      ItemStripped(line[..dot], line[dot + 1..]);
  }

  lemma ItemStripped(num: string, process: string)
    ensures NumberedItem(num, process).Some? ==> Strip(NumberedItem(num, process).value.1) == NumberedItem(num, process).value.1
  {
    StripIdempotent(process);
  }

  lemma {:induction false} FoldStripped(entries: seq<Option<(int, string)>>)
    requires forall k | 0 <= k < |entries| && entries[k].Some? :: Strip(entries[k].value.1) == entries[k].value.1
    ensures forall idx | idx in Fold(entries) :: Strip(Fold(entries)[idx]) == Fold(entries)[idx]
    decreases |entries|
  {
    if entries != [] {
      var init := entries[..|entries| - 1];
      forall k | 0 <= k < |init| && init[k].Some? ensures Strip(init[k].value.1) == init[k].value.1 {
        assert init[k] == entries[k];
      }
      FoldStripped(init);
    }
  }

  /**
   No returned mapping reads "unknown" unless the input it stands for does:
   such an answer always falls back to the input line.
   */
  lemma ResolvedNeverUnknown(lines: seq<string>, userInputs: seq<string>)
    ensures var r := Resolve(ParsedResults(lines), userInputs);
      forall i | 0 <= i < |r| && Lower(Strip(r[i])) == "unknown" :: r[i] == userInputs[i]
  {
    var entries := Entries(lines);
    forall k | 0 <= k < |entries| && entries[k].Some? ensures Strip(entries[k].value.1) == entries[k].value.1 {
      LineEntryStripped(lines[k]);
    }
    FoldStripped(entries);
  }

  /** Lines numbered outside 1..n change nothing in the returned list. */
  lemma OutOfRangeIgnored(results: map<int, string>, userInputs: seq<string>, idx: int, text: string)
    requires idx < 0 || idx >= |userInputs|
    ensures Resolve(results[idx := text], userInputs) == Resolve(results, userInputs)
  {
  }

  /** The first '.' after a run of digits is the one right after them. */
  lemma DotAfterDigits(d: string, rest: string)
    requires IsDigits(d)
    ensures Find(d + "." + rest, ".") == Some(|d|)
  {
    var s := d + "." + rest;
    assert Occurs(s, ".", |d|) by { assert s[|d|..|d| + 1] == "."; }
    FindSpec(s, ".");
  }

  /** A line "n.rest" contributes index n - 1 and the stripped rest. */
  lemma NumberedLineEntry(n: nat, rest: string, line: string)
    requires line == NatToString(n) + "." + rest
    ensures LineEntry(line) == Some((n as int - 1, Strip(rest)))
  {
    SplitAfterDigits(line, NatToString(n), rest);
    ItemOfNat(n, rest);
  }

  /** A line of digits, a '.' and a rest is parsed as the item `digits`, `rest`. */
  lemma SplitAfterDigits(line: string, d: string, rest: string)
    requires IsDigits(d) && line == d + "." + rest
    ensures LineEntry(line) == NumberedItem(d, rest)
  {
    DotAfterDigits(d, rest);
    LineAtDot(line, |d|);
    assert line[..|d|] == d && line[|d| + 1..] == rest;
  }

  lemma ItemOfNat(n: nat, rest: string)
    ensures NumberedItem(NatToString(n), rest) == Some((n as int - 1, Strip(rest)))
  {
    var d := NatToString(n);
    NatTextTrimmed(n);
    ParseIntOfNat(n);
    ItemNumbered(d, rest, n);
  }

  lemma NatTextTrimmed(n: nat)
    ensures Strip(NatToString(n)) == NatToString(n)
  {
    var d := NatToString(n);
    assert IsDigit(d[0]) && IsDigit(d[|d| - 1]);
    StripTrimmed(d);
  }

  /** Each numbered prompt line, read as an answer line, gives its input stripped at its own index. */
  lemma NumberedLineAt(inputs: seq<string>, i: nat)
    requires i < |inputs|
    ensures LineEntry(NumberedLines(inputs)[i]) == Some((i, Strip(inputs[i])))
  {
    NumberedLineIs(inputs, i);
    assert Strip(" " + inputs[i]) == Strip(inputs[i]) by { StripSpacePrefix(" ", inputs[i]); }
    NumberedLineEntry(i + 1, " " + inputs[i], NumberedLines(inputs)[i]);
  }

  lemma NumberedLineIs(inputs: seq<string>, i: nat)
    requires i < |inputs|
    ensures NumberedLines(inputs)[i] == NatToString(i + 1) + "." + (" " + inputs[i])
  {
  }


  /** Entries numbered 0, 1, 2, ... in turn build the dictionary from each index to its text. */
  lemma {:induction false} FoldIndexed(texts: seq<string>)
    ensures Fold(seq(|texts|, i requires 0 <= i < |texts| => Some((i, texts[i]))))
      == map i | 0 <= i < |texts| :: texts[i]
    decreases |texts|
  {
    var entries := seq(|texts|, i requires 0 <= i < |texts| => Some((i, texts[i])));
    if texts != [] {
      var n := |texts| - 1;
      FoldIndexed(texts[..n]);
      assert entries[..n] == seq(n, i requires 0 <= i < n => Some((i, texts[..n][i])));
      var prev := map i | 0 <= i < n :: texts[..n][i];
      assert Fold(entries) == prev[n := texts[n]];
      assert prev[n := texts[n]] == map i | 0 <= i < |texts| :: texts[i];
    }
  }

  /** The numbered prompt lines, read as an answer, give each input stripped, at its own index. */
  lemma NumberedResults(inputs: seq<string>)
    ensures ParsedResults(NumberedLines(inputs)) == map i | 0 <= i < |inputs| :: Strip(inputs[i])
  {
    var texts := seq(|inputs|, i requires 0 <= i < |inputs| => Strip(inputs[i]));
    var indexed := seq(|texts|, i requires 0 <= i < |texts| => Some((i, texts[i])));
    var entries := Entries(NumberedLines(inputs));
    forall i | 0 <= i < |inputs| ensures entries[i] == indexed[i] {
      NumberedLineAt(inputs, i);
    }
    assert entries == indexed;
    FoldIndexed(texts);
  }

  /**
   An answer that repeats the numbered inputs word for word maps every input
   to itself, stripped, except that one reading "unknown" stays as it was.
   */
  lemma EchoedInputsRoundTrip(inputs: seq<string>)
    requires forall i | 0 <= i < |inputs| :: NoLineBreaks(inputs[i])
    ensures Resolve(ParsedResults(Lines(ClassifyInputBatch(inputs, [], []).2)), inputs)
      == seq(|inputs|, i requires 0 <= i < |inputs| =>
           if Lower(Strip(inputs[i])) != "unknown" then Strip(inputs[i]) else inputs[i])
  {
    NumberedLinesRead(inputs);
    NumberedResults(inputs);
    ResolveStripped(inputs);
  }

  /** The numbered prompt text splits back into its numbered lines. */
  lemma NumberedLinesRead(inputs: seq<string>)
    requires forall i | 0 <= i < |inputs| :: NoLineBreaks(inputs[i])
    ensures Lines(Join(NumberedLines(inputs), "\n")) == NumberedLines(inputs)
  {
    var lines := NumberedLines(inputs);
    forall k | 0 <= k < |lines| ensures NoLineBreaks(lines[k]) {
      var d := NatToString(k + 1);
      assert NoLineBreaks(d) by {
        forall j | 0 <= j < |d| ensures !IsLineBreak(d[j]) { assert IsDigit(d[j]); }
      }
      PrefixedNoLineBreaks(d, ". ");
      PrefixedNoLineBreaks(d + ". ", inputs[k]);
    }
    if lines != [] {
      assert lines[|lines| - 1][0] == NatToString(|lines|)[0];
    }
    LinesOfJoin(lines);
  }

  lemma ResolveStripped(inputs: seq<string>)
    ensures Resolve(map i | 0 <= i < |inputs| :: Strip(inputs[i]), inputs)
      == seq(|inputs|, i requires 0 <= i < |inputs| =>
           if Lower(Strip(inputs[i])) != "unknown" then Strip(inputs[i]) else inputs[i])
  {
  }

  /** An answer line such as "3." or "3.  " maps the third input to the empty text, which is kept. */
  lemma EmptyMappingKept(n: nat, blanks: string, userInputs: seq<string>)
    requires 1 <= n <= |userInputs|
    requires forall i | 0 <= i < |blanks| :: blanks[i] == ' '
    ensures Resolve(ParsedResults(Lines(NatToString(n) + "." + blanks)), userInputs)[n - 1] == ""
  {
    var line := NatToString(n) + "." + blanks;
    EmptyNumberedLine(n, blanks);
    SingleNumberedLine(n, blanks);
    EntriesSingle(line);
    ParsedSingle(line, Some((n - 1, "")));
    KeptEmpty(n - 1, userInputs);
  }

  lemma KeptEmpty(i: nat, userInputs: seq<string>)
    requires i < |userInputs|
    ensures Resolve(map[i := ""], userInputs)[i] == ""
  {
    assert |Lower("")| == 0;
  }

  /** A one-line answer records just that line's entry. */
  lemma ParsedSingle(line: string, entry: Option<(int, string)>)
    requires Entries([line]) == [entry] && entry.Some?
    ensures ParsedResults([line]) == map[entry.value.0 := entry.value.1]
  {
    FoldSingle(entry);
  }

  lemma EntriesSingle(line: string)
    ensures Entries([line]) == [LineEntry(line)]
  {
    assert Entries([line])[0] == LineEntry(line);
  }

  lemma FoldSingle(entry: Option<(int, string)>)
    requires entry.Some?
    ensures Fold([entry]) == map[entry.value.0 := entry.value.1]
  {
    assert [entry][..0] == [];
  }

  lemma EmptyNumberedLine(n: nat, blanks: string)
    requires forall i | 0 <= i < |blanks| :: blanks[i] == ' '
    ensures LineEntry(NatToString(n) + "." + blanks) == Some((n - 1, ""))
  {
    assert Strip(blanks) == "" by { StripEmptyIff(blanks); }
    NumberedLineEntry(n, blanks, NatToString(n) + "." + blanks);
  }

  lemma SingleNumberedLine(n: nat, blanks: string)
    requires forall i | 0 <= i < |blanks| :: blanks[i] == ' '
    ensures Lines(NatToString(n) + "." + blanks) == [NatToString(n) + "." + blanks]
  {
    var d := NatToString(n);
    var line := d + "." + blanks;
    forall j | 0 <= j < |line| ensures !IsLineBreak(line[j]) {
      if j < |d| { assert IsDigit(d[j]) && line[j] == d[j]; }
    }
    LinesOfJoin([line]);
  }

  // ---------------------------------------------------------------------
  // split_LLM_results

  /** One mapping split into the four columns name, ORIGIN, UNIT and QUANTITY. */
  datatype Mapped = Mapped(name: string, origin: string, unit: string, quantity: real)

  const Unknown4: seq<string> := ["unknown", "unknown", "unknown", "unknown"]

  /** The four text fields of a mapping: the columns of its stripped text. */
  function Fields(result: string): (f: seq<string>)
    ensures |f| == 4
  {
    Columns(Strip(result))
  }

  /** A stripped text split at " | " and padded to four, or "unknown" four times. */
  function Columns(s: string): (f: seq<string>)
    ensures |f| == 4
  {
    if Lower(s) != "unknown" then Padded4(SplitOn(s, " | ")) else Unknown4
  }

  /** The first four parts, missing ones filled with "". */
  function Padded4(parts: seq<string>): (r: seq<string>)
    ensures |r| == 4
    ensures forall i | 0 <= i < 4 :: r[i] == if i < |parts| then parts[i] else ""
  {
    (parts + ["", "", "", ""])[..4]
  }

  /** `float(f)` unless `f` strips to "" or "N/A", which read as 0.0 (`float` ignores surrounding blanks). */
  function QuantityField(f: string): Option<real> {
    var t := Strip(f);
    if t == "" || t == "N/A" then Some(0.0) else ParseDecimal(t)
  }

  function SplitLlmResult(result: string): Result<Mapped> {
    var f := Fields(result);
    match QuantityField(f[3])
    case None => Err(ValueError)
    case Some(q) => Ok(Mapped(f[0], f[1], f[2], q))
  }

  /** The table of split mappings, or the ValueError of the first quantity that does not parse. */
  function SplitLlmResults(results: seq<string>): (r: Result<seq<Mapped>>)
    ensures r.Ok? <==> forall i | 0 <= i < |results| :: SplitLlmResult(results[i]).Ok?
    ensures r.Err? ==> r.error == ValueError
    ensures r.Ok? ==> (|r.value| == |results|
      && forall i | 0 <= i < |results| :: SplitLlmResult(results[i]) == Ok(r.value[i]))
  {
    var split := seq(|results|, i requires 0 <= i < |results| => SplitLlmResult(results[i]));
    assert forall i | 0 <= i < |results| :: split[i] == SplitLlmResult(results[i]);
    AllOk(split)
  }

  /** The values of a sequence of results when every one succeeded, else a ValueError. */
  function AllOk<T>(split: seq<Result<T>>): (r: Result<seq<T>>)
    ensures r.Ok? <==> forall i | 0 <= i < |split| :: split[i].Ok?
    ensures r.Err? ==> r.error == ValueError
    ensures r.Ok? ==> (|r.value| == |split| && forall i | 0 <= i < |split| :: split[i] == Ok(r.value[i]))
  {
    if forall i | 0 <= i < |split| :: split[i].Ok? then
      Ok(seq(|split|, i requires 0 <= i < |split| && split[i].Ok? => split[i].value))
    else Err(ValueError)
  }



  /** A mapping that reads "unknown" cannot be split: its quantity "unknown" is not a number. */
  lemma UnknownResultRaises(result: string)
    requires Lower(Strip(result)) == "unknown"
    ensures SplitLlmResult(result) == Err(ValueError)
  {
    var t := "unknown";
    StripTrimmed(t);
    ParseDecimalLetter(t);
  }

  /** A mapping with no " | " becomes the name alone, with empty ORIGIN and UNIT and quantity 0.0. */
  lemma SingleFieldPadded(result: string)
    requires Lower(Strip(result)) != "unknown"
    requires !Contains(Strip(result), " | ")
    ensures SplitLlmResult(result) == Ok(Mapped(Strip(result), "", "", 0.0))
  {
    assert Fields(result) == [Strip(result), "", "", ""] by {
      SplitOnAbsent(Strip(result), " | ");
      assert Padded4([Strip(result)]) == [Strip(result), "", "", ""];
    }
    assert QuantityField("") == Some(0.0) by { StripTrimmed(""); }
  }

  lemma NoSeparatorBeforeBar(a: string)
    requires LacksChar(a, '|')
    ensures !Contains(a + " |", " | ")
  {
    var s := a + " |";
    forall i | 0 <= i <= |s| - 3 ensures !Occurs(s, " | ", i) {
      if i + 1 < |a| { assert s[i + 1] == a[i + 1]; } else { assert s[i + 1] == ' '; }
      assert s[i..i + 3][1] == s[i + 1] != " | "[1];
    }
  }

  /** A text without '|' in front of " | " is split off as the first part. */
  lemma SplitPrepend(a: string, rest: string)
    requires LacksChar(a, '|')
    ensures SplitOn(a + " | " + rest, " | ") == [a] + SplitOn(rest, " | ")
  {
    assert " | "[..2] == " |";
    NoSeparatorBeforeBar(a);
    SplitOnFirst(a, " | ", rest);
  }

  lemma SplitOne(d: string)
    requires LacksChar(d, '|')
    ensures SplitOn(d, " | ") == [d]
  {
    AbsentChar(d, " | ", 1);
    SplitOnAbsent(d, " | ");
  }

  lemma SplitThree(b: string, c: string, d: string)
    requires LacksChar(b, '|') && LacksChar(c, '|') && LacksChar(d, '|')
    ensures SplitOn(b + " | " + (c + " | " + d), " | ") == [b, c, d]
  {
    SplitOne(d);
    SplitPrepend(c, d);
    SplitPrepend(b, c + " | " + d);
  }

  /** Four texts joined by " | " split back into the same four when none holds '|'. */
  lemma SplitFour(a: string, b: string, c: string, d: string)
    requires LacksChar(a, '|') && LacksChar(b, '|') && LacksChar(c, '|') && LacksChar(d, '|')
    ensures SplitOn(a + " | " + (b + " | " + (c + " | " + d)), " | ") == [a, b, c, d]
  {
    SplitThree(b, c, d);
    SplitPrepend(a, b + " | " + (c + " | " + d));
  }

  /** A text of another length than "unknown" does not read "unknown" in any case. */
  lemma NotUnknown(s: string)
    requires |s| != 7
    ensures Lower(s) != "unknown"
  {
    assert |Lower(s)| == |s|;
  }

  /** Four fields joined by " | " are read back as the same four when none holds '|'. */
  lemma FourFieldsSplit(a: string, b: string, c: string, d: string)
    requires LacksChar(a, '|') && LacksChar(b, '|') && LacksChar(c, '|') && LacksChar(d, '|')
    requires a != [] && !IsSpace(a[0]) && d != [] && !IsSpace(d[|d| - 1])
    ensures Fields(a + " | " + b + " | " + c + " | " + d) == [a, b, c, d]
  {
    FourTrimmed(a, b, c, d);
    FourColumns(a, b, c, d);
  }

  lemma FourTrimmed(a: string, b: string, c: string, d: string)
    requires a != [] && !IsSpace(a[0]) && d != [] && !IsSpace(d[|d| - 1])
    ensures Strip(a + " | " + b + " | " + c + " | " + d) == a + " | " + b + " | " + c + " | " + d
  {
    var s := a + " | " + b + " | " + c + " | " + d;
    assert s[0] == a[0] && s[|s| - 1] == d[|d| - 1];
    StripTrimmed(s);
  }

  lemma FourColumns(a: string, b: string, c: string, d: string)
    requires LacksChar(a, '|') && LacksChar(b, '|') && LacksChar(c, '|') && LacksChar(d, '|')
    ensures Columns(a + " | " + b + " | " + c + " | " + d) == [a, b, c, d]
  {
    var s := a + " | " + b + " | " + c + " | " + d;
    assert Lower(s) != "unknown" by { NotUnknown(s); }
    assert SplitOn(s, " | ") == [a, b, c, d] by {
      assert s == a + " | " + (b + " | " + (c + " | " + d));
      SplitFour(a, b, c, d);
    }
    assert Padded4([a, b, c, d]) == [a, b, c, d];
  }


  /**
   An input line that falls back unmapped splits back into its own name, unit
   and quantity, but its ORIGIN gains a trailing blank from the double space
   in the line format.
   */
  lemma FallbackLineSplitsBack(e: Entry, fmt: real -> string)
    requires LacksChar(e.name, '|') && LacksChar(CellString(e.origin), '|') && LacksChar(e.rawUnit, '|')
    requires e.name != [] && !IsSpace(e.name[0])
    requires var q := fmt(e.quantity);
      LacksChar(q, '|') && q != [] && !IsSpace(q[0]) && !IsSpace(q[|q| - 1])
      && ParseDecimal(q) == Some(e.quantity)
    ensures SplitLlmResult(InputLine(e, fmt)) == Ok(Mapped(e.name, CellString(e.origin) + " ", e.rawUnit, e.quantity))
  {
    var o := CellString(e.origin);
    var q := fmt(e.quantity);
    LacksCharConcat(o, " ", '|');
    assert InputLine(e, fmt) == e.name + " | " + (o + " ") + " | " + e.rawUnit + " | " + q;
    FourFieldsSplit(e.name, o + " ", e.rawUnit, q);
    StripTrimmed(q);
    if q == "N/A" {
      ParseDecimalLetter(q);
    }
  }
}
