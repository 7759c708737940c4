/**
 The helpers of fauldier/helper.py: reading `key=value` configuration lines,
 the missing-value test, the row verdicts and statistics of `compare_results`,
 and the line update with which `prompt_config` saves an entered value.
 */
module Helper {
  import opened Wrappers
  import opened Text

  // ---------------------------------------------------------------------
  // read_config

  /** One pair read from a configuration line. */
  datatype Setting = Setting(key: string, value: string)

  /**
   What one file line contributes: nothing for a blank or '#' line, the
   stripped key and value around its first '=', or the ValueError of
   unpacking a line without '=' into two names.
   */
  function ConfigEntry(line: string): Result<Option<Setting>> {
    var t := Strip(line);
    if t == "" || t[0] == '#' then Ok(None)
    else match Find(t, "=")
      case None => Err(ValueError)
      case Some(i) => Ok(Some(SettingAt(t, i)))
  }

  /** `key, value = line.split('=', 1)` at the '=' at `i`, both stripped. */
  function SettingAt(t: string, i: nat): Setting
    requires i < |t|
  {
    Setting(Strip(t[..i]), Strip(t[i + 1..]))
  }

  /** What the lines contribute, one entry per line. */
  function Entries(lines: seq<string>): (r: seq<Result<Option<Setting>>>)
    ensures |r| == |lines|
  {
    seq(|lines|, i requires 0 <= i < |lines| => ConfigEntry(lines[i]))
  }

  /** The dictionary after the given entries, a later entry overwriting an earlier key; the first error stops. */
  function Apply(entries: seq<Result<Option<Setting>>>): Result<map<string, string>>
    decreases |entries|
  {
    if entries == [] then Ok(map[])
    else match Apply(entries[..|entries| - 1])
      case Err(e) => Err(e)
      case Ok(config) =>
        match entries[|entries| - 1]
        case Err(e) => Err(e)
        case Ok(None) => Ok(config)
        case Ok(Some(s)) => Ok(config[s.key := s.value])
  }

  /** The dictionary `read_config` returns for the lines of a file. */
  function ConfigOf(lines: seq<string>): Result<map<string, string>> {
    Apply(Entries(lines))
  }

  /** The lines of a configuration file, read one after another into a dictionary. */
  method ReadConfig(lines: seq<string>) returns (r: Result<map<string, string>>)
    ensures r == ConfigOf(lines)
  {
    ghost var entries := Entries(lines);
    var config: map<string, string> := map[];
    for k := 0 to |lines|
      invariant Apply(entries[..k]) == Ok(config)
    {
      assert entries[..k + 1][..k] == entries[..k];
      var t := Strip(lines[k]);
      if t != "" && t[0] != '#' {
        var eq := Find(t, "=");
        if eq.None? {
          PrefixErr(entries, k + 1);
          return Err(ValueError);
        }
        var setting := SettingAt(t, eq.value);
        config := config[setting.key := setting.value];
      }
    }
    assert entries[..|lines|] == entries;
    r := Ok(config);
  }

  /** An error in the entries read so far is the error of them all. */
  lemma {:induction false} PrefixErr(entries: seq<Result<Option<Setting>>>, k: nat)
    requires k <= |entries| && Apply(entries[..k]).Err?
    ensures Apply(entries) == Apply(entries[..k])
    decreases |entries| - k
  {
    if k < |entries| {
      assert entries[..k + 1][..k] == entries[..k];
      PrefixErr(entries, k + 1);
    } else {
      assert entries[..k] == entries;
    }
  }

  /** Applying fails, with a ValueError, exactly when some entry is an error. */
  lemma {:induction false} ApplyErrIff(entries: seq<Result<Option<Setting>>>)
    requires forall i | 0 <= i < |entries| :: entries[i].Err? ==> entries[i].error == ValueError
    ensures Apply(entries).Err? <==> exists i | 0 <= i < |entries| :: entries[i].Err?
    ensures Apply(entries).Err? ==> Apply(entries).error == ValueError
    decreases |entries|
  {
    if entries != [] {
      var init := entries[..|entries| - 1];
      ApplyErrIff(init);
      if Apply(init).Err? {
        var i :| 0 <= i < |init| && init[i].Err?;
        assert entries[i].Err?;
      }
    }
  }

  /** The key an entry sets, if it sets one. */
  function KeyOf(entry: Result<Option<Setting>>): Option<string> {
    if entry.Ok? && entry.value.Some? then Some(entry.value.value.key) else None
  }

  /** A key is in the dictionary exactly when some entry sets it. */
  lemma {:induction false} ApplyKeys(entries: seq<Result<Option<Setting>>>, key: string)
    requires Apply(entries).Ok?
    ensures key in Apply(entries).value <==> exists i | 0 <= i < |entries| :: KeyOf(entries[i]) == Some(key)
    decreases |entries|
  {
    if entries != [] {
      var init := entries[..|entries| - 1];
      ApplyKeys(init, key);
      if key in Apply(init).value {
        var i :| 0 <= i < |init| && KeyOf(init[i]) == Some(key);
        assert KeyOf(entries[i]) == Some(key);
      }
    }
  }

  /** The value of a key is the one of the last entry that sets it. */
  lemma {:induction false} ApplyLastWins(entries: seq<Result<Option<Setting>>>, i: nat, key: string, value: string)
    requires Apply(entries).Ok? && i < |entries|
    requires entries[i] == Ok(Some(Setting(key, value)))
    requires forall j | i < j < |entries| :: KeyOf(entries[j]) != Some(key)
    ensures key in Apply(entries).value && Apply(entries).value[key] == value
    decreases |entries|
  {
    if i < |entries| - 1 {
      var init := entries[..|entries| - 1];
      assert init[i] == entries[i];
      forall j | i < j < |init| ensures KeyOf(init[j]) != Some(key) {
        assert init[j] == entries[j];
      }
      ApplyLastWins(init, i, key, value);
    }
  }

  /** `read_config` raises ValueError exactly when some line is neither blank, a comment, nor holds '='. */
  lemma ConfigErrIff(lines: seq<string>)
    ensures ConfigOf(lines).Err? <==> exists i | 0 <= i < |lines| :: ConfigEntry(lines[i]).Err?
    ensures ConfigOf(lines).Err? ==> ConfigOf(lines).error == ValueError
  {
    var entries := Entries(lines);
    forall i | 0 <= i < |lines| ensures entries[i] == ConfigEntry(lines[i]) { }
    ApplyErrIff(entries);
  }

  /** A key is read exactly when some line sets it. */
  lemma ConfigKeys(lines: seq<string>, key: string)
    requires ConfigOf(lines).Ok?
    ensures key in ConfigOf(lines).value <==> exists i | 0 <= i < |lines| :: KeyOf(ConfigEntry(lines[i])) == Some(key)
  {
    var entries := Entries(lines);
    forall i | 0 <= i < |lines| ensures entries[i] == ConfigEntry(lines[i]) { }
    ApplyKeys(entries, key);
  }

  /** A key holds the value of the last line that sets it. */
  lemma ConfigLastWins(lines: seq<string>, i: nat, key: string, value: string)
    requires ConfigOf(lines).Ok? && i < |lines|
    requires ConfigEntry(lines[i]) == Ok(Some(Setting(key, value)))
    requires forall j | i < j < |lines| :: KeyOf(ConfigEntry(lines[j])) != Some(key)
    ensures key in ConfigOf(lines).value && ConfigOf(lines).value[key] == value
  {
    var entries := Entries(lines);
    forall j | 0 <= j < |lines| ensures entries[j] == ConfigEntry(lines[j]) { }
    ApplyLastWins(entries, i, key, value);
  }


  // ---------------------------------------------------------------------
  // is_missing

  /**
   A configuration value that still has to be asked for: absent (`None`) or
   blank. Values are what `dict.get` returns on the dictionary `read_config`
   builds, so they are strings or `None`.
   */
  predicate IsMissing(v: Option<string>) {
    v.None? || Strip(v.value) == ""
  }

  /** Missing means absent or made of white space only. */
  lemma IsMissingIff(v: Option<string>)
    ensures IsMissing(v) <==> v.None? || forall i | 0 <= i < |v.value| :: IsSpace(v.value[i])
  {
    if v.Some? {
      StripEmptyIff(v.value);
    }
  }

  // ---------------------------------------------------------------------
  // The save step of prompt_config

  /** The line written for a saved key. */
  function ConfigLine(key: string, value: string): string {
    key + "=" + value + "\n"
  }

  /** The first line that starts with `prefix`, if any. */
  function FirstStarting(lines: seq<string>, prefix: string): (r: Option<nat>)
    ensures r.Some? ==> (r.value < |lines| && StartsWith(lines[r.value], prefix)
      && forall j | 0 <= j < r.value :: !StartsWith(lines[j], prefix))
    ensures r.None? ==> forall j | 0 <= j < |lines| :: !StartsWith(lines[j], prefix)
  {
    if lines == [] then None
    else if StartsWith(lines[0], prefix) then Some(0)
    else match FirstStarting(lines[1..], prefix)
      case None => None
      case Some(i) => Some(i + 1)
  }

  /** The file lines after saving: the first `key=` line replaced, or the new line appended. */
  function Upserted(lines: seq<string>, key: string, value: string): (r: seq<string>)
  {
    match FirstStarting(lines, key + "=")
    case Some(i) => lines[i := ConfigLine(key, value)]
    case None => lines + [ConfigLine(key, value)]
  }

  /** The `updated` loop: overwrite the first `key=` line in place, else append. */
  method UpsertConfigLine(lines: seq<string>, key: string, value: string) returns (result: seq<string>)
    ensures result == Upserted(lines, key, value)
  {
    result := lines;
    var updated := false;
    var i := 0;
    while i < |result| && !updated
      invariant 0 <= i <= |lines| && |result| == |lines|
      invariant !updated ==> result == lines && forall j | 0 <= j < i :: !StartsWith(lines[j], key + "=")
      invariant updated ==> (0 < i && FirstStarting(lines, key + "=") == Some(i - 1)
        && result == lines[i - 1 := ConfigLine(key, value)])
    {
      if StartsWith(result[i], key + "=") {
        result := result[i := ConfigLine(key, value)];
        updated := true;
      }
      i := i + 1;
    }
    if !updated {
      result := result + [ConfigLine(key, value)];
    }
  }

  /**
   The save step: the stripped entered value, or the RuntimeError raised for an
   empty one before anything is written, then the updated file lines.
   */
  method SaveConfigValue(lines: seq<string>, key: string, entered: string) returns (r: Result<seq<string>>)
    ensures Strip(entered) == "" ==> r == Err(RuntimeError)
    ensures Strip(entered) != "" ==> r == Ok(Upserted(lines, key, Strip(entered)))
  {
    var v := Strip(entered);
    if v == "" {
      return Err(RuntimeError);
    }
    var saved := UpsertConfigLine(lines, key, v);
    r := Ok(saved);
  }


  /** A key that reads back as itself: stripped, not empty, not a comment and without '='. */
  predicate PlainKey(key: string) {
    key != "" && Strip(key) == key && key[0] != '#' && LacksChar(key, '=')
  }

  /** The saved line is read back as the key and the value that were saved. */
  lemma ConfigLineRead(key: string, value: string)
    requires PlainKey(key) && value != "" && Strip(value) == value
    ensures ConfigEntry(ConfigLine(key, value)) == Ok(Some(Setting(key, value)))
  {
    var t := key + "=" + value;
    var line := ConfigLine(key, value);
    assert Strip(line) == t by {
      assert line == t + "\n";
      Trimmed(key);
      Trimmed(value);
      StripNewline(t);
    }
    assert Find(t, "=") == Some(|key|) by { EqualsAfterKey(key, value); }
    EntryOfParts(line, t, key, value);
  }

  lemma EntryOfParts(line: string, t: string, key: string, value: string)
    requires t == key + "=" + value && key != "" && key[0] != '#'
    requires Strip(line) == t && Find(t, "=") == Some(|key|)
    requires Strip(key) == key && Strip(value) == value
    ensures ConfigEntry(line) == Ok(Some(Setting(key, value)))
  {
    EntryOfTrimmed(line, t, |key|);
    SettingOfParts(t, key, value);
  }

  lemma SettingOfParts(t: string, key: string, value: string)
    requires t == key + "=" + value && Strip(key) == key && Strip(value) == value
    ensures SettingAt(t, |key|) == Setting(key, value)
  {
    assert t[..|key|] == key && t[|key| + 1..] == value;
  }

  lemma EntryOfTrimmed(line: string, t: string, i: nat)
    requires Strip(line) == t && t != "" && t[0] != '#' && Find(t, "=") == Some(i)
    ensures i < |t| && ConfigEntry(line) == Ok(Some(SettingAt(t, i)))
  {
  }

  /** A stripped text that is not empty starts and ends with a character that is not white space. */
  lemma Trimmed(s: string)
    requires s != [] && Strip(s) == s
    ensures !IsSpace(s[0]) && !IsSpace(s[|s| - 1])
  {
    assert StripRight(StripLeft(s)) == s;
  }

  /** A trailing line break is stripped with the rest of the white space. */
  lemma StripNewline(t: string)
    requires t != [] && !IsSpace(t[0]) && !IsSpace(t[|t| - 1])
    ensures Strip(t + "\n") == t
  {
    var u := t + "\n";
    assert StripLeft(u) == u;
    assert u[..|u| - 1] == t;
    assert StripRight(u) == StripRight(t);
    StripTrimmed(t);
  }

  /** The first '=' of a saved line is the one after the key. */
  lemma EqualsAfterKey(key: string, value: string)
    requires LacksChar(key, '=')
    ensures Find(key + "=" + value, "=") == Some(|key|)
  {
    var t := key + "=" + value;
    assert Occurs(t, "=", |key|) by { assert t[|key|..|key| + 1] == "="; }
    forall j | 0 <= j < |key| ensures !Occurs(t, "=", j) {
      assert t[j..j + 1][0] == key[j] != '=';
    }
    FindSpec(t, "=");
  }


  /** The first line starting with `prefix` is the one at `i` when it starts so and none before does. */
  lemma FirstStartingAt(lines: seq<string>, prefix: string, i: nat)
    requires i < |lines| && StartsWith(lines[i], prefix)
    requires forall j | 0 <= j < i :: !StartsWith(lines[j], prefix)
    ensures FirstStarting(lines, prefix) == Some(i)
  {
  }

  /** The saved line starts with `key=`, so a later save finds it. */
  lemma ConfigLineStarts(key: string, value: string)
    ensures StartsWith(ConfigLine(key, value), key + "=")
  {
    assert ConfigLine(key, value)[..|key + "="|] == key + "=";
  }

  /** Saving the same value twice leaves the file as saving it once. */
  lemma UpsertIdempotent(lines: seq<string>, key: string, value: string)
    ensures Upserted(Upserted(lines, key, value), key, value) == Upserted(lines, key, value)
  {
    var line := ConfigLine(key, value);
    var u := Upserted(lines, key, value);
    ConfigLineStarts(key, value);
    match FirstStarting(lines, key + "=")
    case Some(i) =>
      assert u == lines[i := line];
      forall j | 0 <= j < i ensures !StartsWith(u[j], key + "=") {
        assert u[j] == lines[j];
      }
      assert u[i] == line;
      FirstStartingAt(u, key + "=", i);
    case None =>
      assert u == lines + [line];
      forall j | 0 <= j < |lines| ensures !StartsWith(u[j], key + "=") {
        assert u[j] == lines[j];
      }
      assert u[|lines|] == line;
      FirstStartingAt(u, key + "=", |lines|);
  }

  /**
   With no `key=` line yet, the saved line goes last and `read_config` then
   reads the saved value for the key and everything else as before.
   */
  lemma SavedValueAppended(lines: seq<string>, key: string, value: string)
    requires PlainKey(key) && value != "" && Strip(value) == value
    requires FirstStarting(lines, key + "=").None? && ConfigOf(lines).Ok?
    ensures ConfigOf(Upserted(lines, key, value)) == Ok(ConfigOf(lines).value[key := value])
  {
    var line := ConfigLine(key, value);
    var u := lines + [line];
    assert Upserted(lines, key, value) == u;
    ConfigLineRead(key, value);
    var e := Entries(u);
    assert e[..|lines|] == Entries(lines) by {
      forall j | 0 <= j < |lines| ensures e[j] == Entries(lines)[j] {
        assert u[j] == lines[j];
      }
    }
    assert e[|lines|] == ConfigEntry(line);
  }

  /**
   With a `key=` line, the saved line replaces the first one, and `read_config`
   reads the saved value for the key unless a later line sets the key again.
   */
  lemma SavedValueReplaced(lines: seq<string>, key: string, value: string, i: nat)
    requires PlainKey(key) && value != "" && Strip(value) == value
    requires FirstStarting(lines, key + "=") == Some(i) && ConfigOf(lines).Ok?
    requires forall j | i < j < |lines| :: KeyOf(ConfigEntry(lines[j])) != Some(key)
    ensures ConfigOf(Upserted(lines, key, value)).Ok?
    ensures key in ConfigOf(Upserted(lines, key, value)).value
    ensures ConfigOf(Upserted(lines, key, value)).value[key] == value
  {
    var line := ConfigLine(key, value);
    var u := lines[i := line];
    assert Upserted(lines, key, value) == u;
    ConfigLineRead(key, value);
    ConfigErrIff(lines);
    forall j | 0 <= j < |u| ensures ConfigEntry(u[j]).Ok? {
      if j != i {
        assert u[j] == lines[j];
      }
    }
    ConfigErrIff(u);
    forall j | i < j < |u| ensures KeyOf(ConfigEntry(u[j])) != Some(key) {
      assert u[j] == lines[j];
    }
    ConfigLastWins(u, i, key, value);
  }


  // ---------------------------------------------------------------------
  // compare_results

  /** A table handed to `compare_results`: column names and rows of cells, one cell per column. */
  class Frame<C> {
    var columns: seq<string>
    var rows: seq<seq<C>>

    constructor (columns: seq<string>, rows: seq<seq<C>>)
      ensures this.columns == columns && this.rows == rows
    {
      this.columns := columns;
      this.rows := rows;
    }

    /** Every row has one cell per column, as in any DataFrame. */
    predicate Rectangular()
      reads this
    {
      Rect(columns, rows)
    }
  }

  predicate Rect<C>(columns: seq<string>, rows: seq<seq<C>>) {
    forall i | 0 <= i < |rows| :: |rows[i]| == |columns|
  }

  datatype Verdict = Equal | NotEqual

  /** The printed figures: "Mapped entries", "Unmapped entries" and the rate in percent. */
  datatype Comparison = Comparison(verdicts: seq<Verdict>, mapped: nat, unmapped: nat, rate: Option<real>)

  /** `df.columns.str.strip().str.lower()`. */
  function Normalized(columns: seq<string>): (r: seq<string>)
    ensures |r| == |columns|
  {
    seq(|columns|, i requires 0 <= i < |columns| => Lower(Strip(columns[i])))
  }

  /** `df["QUANTITY"] = pd.to_numeric(df["QUANTITY"], ...)`: every cell of the QUANTITY column coerced. */
  function Coerced<C>(columns: seq<string>, rows: seq<seq<C>>, toNumeric: C -> C): (r: seq<seq<C>>)
    ensures |r| == |rows| && forall i | 0 <= i < |rows| :: |r[i]| == |rows[i]|
  {
    seq(|rows|, i requires 0 <= i < |rows| =>
      seq(|rows[i]|, j requires 0 <= j < |rows[i]| =>
        if j < |columns| && columns[j] == "QUANTITY" then toNumeric(rows[i][j]) else rows[i][j]))
  }

  predicate Distinct(names: seq<string>) {
    forall i, j | 0 <= i < j < |names| :: names[i] != names[j]
  }

  /**
   The two column lists survive `reindex(sorted(...))` and compare equal: no
   duplicate label (reindex raises), and the same names (the sorted lists
   then agree position by position).
   */
  predicate ColumnsMatch(a: seq<string>, b: seq<string>) {
    Distinct(a) && Distinct(b) && multiset(a) == multiset(b)
  }

  function IndexOf(names: seq<string>, name: string): (k: nat)
    requires name in names
    ensures k < |names| && names[k] == name
  {
    if names[0] == name then 0 else 1 + IndexOf(names[1..], name)
  }

  /** The first `n` columns of a row agree with the same-named cells of the other row. */
  predicate AgreesUpTo<C>(c1: seq<string>, row1: seq<C>, c2: seq<string>, row2: seq<C>, same: (string, C, C) -> bool, n: nat)
    requires n <= |c1| == |row1| && |row2| == |c2| && forall k | 0 <= k < |c1| :: c1[k] in c2
  {
    forall k | 0 <= k < n :: same(c1[k], row1[k], row2[IndexOf(c2, c1[k])])
  }

  /** A row is 'Equal' when every column agrees, the column found by name in the second table. */
  predicate RowMatches<C>(c1: seq<string>, row1: seq<C>, c2: seq<string>, row2: seq<C>, same: (string, C, C) -> bool)
    requires |row1| == |c1| && |row2| == |c2| && forall k | 0 <= k < |c1| :: c1[k] in c2
  {
    AgreesUpTo(c1, row1, c2, row2, same, |c1|)
  }

  /** The verdict of each row of the first table. */
  function Verdicts<C>(c1: seq<string>, rows1: seq<seq<C>>, c2: seq<string>, rows2: seq<seq<C>>, same: (string, C, C) -> bool): (r: seq<Verdict>)
    requires Rect(c1, rows1) && Rect(c2, rows2) && |rows1| == |rows2| && forall k | 0 <= k < |c1| :: c1[k] in c2
    ensures |r| == |rows1|
  {
    seq(|rows1|, i requires 0 <= i < |rows1| =>
      if RowMatches(c1, rows1[i], c2, rows2[i], same) then Equal else NotEqual)
  }

  /**
   What `compare_results` returns once both tables have their QUANTITY
   coerced and their columns renamed: the ValueError of mismatching columns
   or row counts, or the verdicts and figures.
   */
  function CompareTables<C>(c1: seq<string>, rows1: seq<seq<C>>, c2: seq<string>, rows2: seq<seq<C>>, same: (string, C, C) -> bool): Result<Comparison>
    requires Rect(c1, rows1) && Rect(c2, rows2)
  {
    if !ColumnsMatch(c1, c2) || |rows1| != |rows2| then Err(ValueError)
    else
      assert forall k | 0 <= k < |c1| :: c1[k] in multiset(c2);
      Ok(Statistics(Verdicts(c1, rows1, c2, rows2, same)))
  }

  /** The number of 'Equal' verdicts: `row_comparison.sum()`. */
  function CountEqual(verdicts: seq<Verdict>): (n: nat)
    ensures n <= |verdicts|
  {
    if verdicts == [] then 0 else CountEqual(verdicts[..|verdicts| - 1]) + (if verdicts[|verdicts| - 1] == Equal then 1 else 0)
  }

  /** `part / total * 100`: between 0 and 100, and 0 exactly for an empty part. */
  function Percentage(total: nat, part: nat): (p: real)
    requires 0 < total && part <= total
    ensures 0.0 <= p <= 100.0
    ensures p == 0.0 <==> part == 0
  {
    var t := total as real;
    var q := part as real / t;
    assert q * t == part as real;
    assert (1.0 - q) * t == t - part as real;
    assert 0.0 <= q <= 1.0;
    assert q == 0.0 <==> part == 0;
    q * 100.0
  }

  /** The figures for the verdicts; with no row the rate is NaN, here `None`. */
  function Statistics(verdicts: seq<Verdict>): Comparison {
    var total := |verdicts|;
    var mapped := CountEqual(verdicts);
    var rate := if total == 0 then None else Some(Percentage(total, total - mapped));
    Comparison(verdicts, mapped, total - mapped, rate)
  }


  /** The comparison loop: `comparison_df[col]` column by column, then `all(axis=1)` per row. */
  method CompareRows<C>(c1: seq<string>, rows1: seq<seq<C>>, c2: seq<string>, rows2: seq<seq<C>>, same: (string, C, C) -> bool)
    returns (verdicts: seq<Verdict>)
    requires Rect(c1, rows1) && Rect(c2, rows2) && |rows1| == |rows2| && forall k | 0 <= k < |c1| :: c1[k] in c2
    ensures verdicts == Verdicts(c1, rows1, c2, rows2, same)
  {
    var rowOk := seq(|rows1|, i => true);
    for k := 0 to |c1|
      invariant |rowOk| == |rows1|
      invariant forall i | 0 <= i < |rows1| :: rowOk[i] == AgreesUpTo(c1, rows1[i], c2, rows2[i], same, k)
    {
      var k2 := IndexOf(c2, c1[k]);
      for i := 0 to |rows1|
        invariant |rowOk| == |rows1|
        invariant forall i' | 0 <= i' < i :: rowOk[i'] == AgreesUpTo(c1, rows1[i'], c2, rows2[i'], same, k + 1)
        invariant forall i' | i <= i' < |rows1| :: rowOk[i'] == AgreesUpTo(c1, rows1[i'], c2, rows2[i'], same, k)
      {
        rowOk := rowOk[i := rowOk[i] && same(c1[k], rows1[i][k], rows2[i][k2])];
      }
    }
    verdicts := seq(|rowOk|, i requires 0 <= i < |rowOk| => if rowOk[i] then Equal else NotEqual);
  }

  /**
   `compare_results`: coerce QUANTITY in both tables (a missing QUANTITY is a
   KeyError), rename their columns in place, which the caller sees, then
   compare. Display and printing are left out.
   */
  method CompareResults<C>(df1: Frame<C>, df2: Frame<C>, toNumeric: C -> C, same: (string, C, C) -> bool)
    returns (r: Result<Comparison>)
    requires df1 != df2 && df1.Rectangular() && df2.Rectangular()
    modifies df1, df2
    ensures "QUANTITY" !in old(df1.columns) ==> r == Err(KeyError) && unchanged(df1, df2)
    ensures "QUANTITY" in old(df1.columns) ==> df1.rows == Coerced(old(df1.columns), old(df1.rows), toNumeric)
    ensures "QUANTITY" in old(df1.columns) && "QUANTITY" !in old(df2.columns) ==>
      r == Err(KeyError) && df1.columns == old(df1.columns) && unchanged(df2)
    ensures "QUANTITY" in old(df1.columns) && "QUANTITY" in old(df2.columns) ==>
      && df1.columns == Normalized(old(df1.columns))
      && df2.columns == Normalized(old(df2.columns))
      && df2.rows == Coerced(old(df2.columns), old(df2.rows), toNumeric)
      && df1.Rectangular() && df2.Rectangular()
      && r == CompareTables(df1.columns, df1.rows, df2.columns, df2.rows, same)
  {
    if "QUANTITY" !in df1.columns {
      return Err(KeyError);
    }
    df1.rows := Coerced(df1.columns, df1.rows, toNumeric);
    if "QUANTITY" !in df2.columns {
      return Err(KeyError);
    }
    df2.rows := Coerced(df2.columns, df2.rows, toNumeric);
    df1.columns := Normalized(df1.columns);
    df2.columns := Normalized(df2.columns);
    var c1, c2 := df1.columns, df2.columns;
    if !ColumnsMatch(c1, c2) || |df1.rows| != |df2.rows| {
      return Err(ValueError);
    }
    assert forall k | 0 <= k < |c1| :: c1[k] in multiset(c2);
    var verdicts := CompareRows(c1, df1.rows, c2, df2.rows, same);
    r := Ok(Statistics(verdicts));
  }


  /** Every row is counted as mapped exactly when every verdict is 'Equal'. */
  lemma {:induction false} CountEqualAll(verdicts: seq<Verdict>)
    ensures CountEqual(verdicts) == |verdicts| <==> forall i | 0 <= i < |verdicts| :: verdicts[i] == Equal
    decreases |verdicts|
  {
    if verdicts != [] {
      var init := verdicts[..|verdicts| - 1];
      CountEqualAll(init);
      assert forall i | 0 <= i < |init| :: init[i] == verdicts[i];
    }
  }

  /**
   Mapped and unmapped rows add up to all rows, the rate is a percentage, and
   it is 0% exactly when every row is 'Equal'.
   */
  lemma StatisticsFigures(verdicts: seq<Verdict>)
    ensures Statistics(verdicts).mapped + Statistics(verdicts).unmapped == |verdicts|
    ensures Statistics(verdicts).mapped == CountEqual(verdicts)
    ensures Statistics(verdicts).rate.None? <==> verdicts == []
    ensures Statistics(verdicts).rate.Some? ==> 0.0 <= Statistics(verdicts).rate.value <= 100.0
    ensures Statistics(verdicts).rate == Some(0.0) <==>
      verdicts != [] && forall i | 0 <= i < |verdicts| :: verdicts[i] == Equal
  {
    CountEqualAll(verdicts);
  }

  /** Between distinct names, looking a name up gives back its own position. */
  lemma IndexOfDistinct(names: seq<string>, k: nat)
    requires Distinct(names) && k < |names|
    ensures IndexOf(names, names[k]) == k
  {
  }

  /** A table compared with an identical copy, under a reflexive cell equality, is all 'Equal' at 0%. */
  lemma IdenticalTablesEqual<C>(c: seq<string>, rows: seq<seq<C>>, same: (string, C, C) -> bool)
    requires Distinct(c) && Rect(c, rows) && rows != []
    requires forall name, x :: same(name, x, x)
    ensures CompareTables(c, rows, c, rows, same).Ok?
    ensures CompareTables(c, rows, c, rows, same).value.rate == Some(0.0)
  {
    forall k | 0 <= k < |c| ensures IndexOf(c, c[k]) == k {
      IndexOfDistinct(c, k);
    }
    var v := Verdicts(c, rows, c, rows, same);
    assert forall i | 0 <= i < |v| :: v[i] == Equal;
    StatisticsFigures(v);
  }


  /** Under a symmetric cell equality, one row agreeing with the other implies the converse. */
  lemma RowMatchesConverse<C>(c1: seq<string>, row1: seq<C>, c2: seq<string>, row2: seq<C>, same: (string, C, C) -> bool)
    requires ColumnsMatch(c1, c2) && |row1| == |c1| && |row2| == |c2|
    requires forall name, x, y :: same(name, x, y) == same(name, y, x)
    requires forall k | 0 <= k < |c1| :: c1[k] in c2
    requires forall k | 0 <= k < |c2| :: c2[k] in c1
    requires RowMatches(c1, row1, c2, row2, same)
    ensures RowMatches(c2, row2, c1, row1, same)
  {
    forall k2 | 0 <= k2 < |c2| ensures same(c2[k2], row2[k2], row1[IndexOf(c1, c2[k2])]) {
      var k1 := IndexOf(c1, c2[k2]);
      IndexOfDistinct(c2, k2);
      assert same(c1[k1], row1[k1], row2[IndexOf(c2, c1[k1])]);
    }
  }

  /** Under a symmetric cell equality, comparing the tables either way round gives the same result. */
  lemma CompareSymmetric<C>(c1: seq<string>, rows1: seq<seq<C>>, c2: seq<string>, rows2: seq<seq<C>>, same: (string, C, C) -> bool)
    requires Rect(c1, rows1) && Rect(c2, rows2)
    requires forall name, x, y :: same(name, x, y) == same(name, y, x)
    ensures CompareTables(c1, rows1, c2, rows2, same) == CompareTables(c2, rows2, c1, rows1, same)
  {
    if ColumnsMatch(c1, c2) && |rows1| == |rows2| {
      assert forall k | 0 <= k < |c1| :: c1[k] in multiset(c2);
      assert forall k | 0 <= k < |c2| :: c2[k] in multiset(c1);
      var v1 := Verdicts(c1, rows1, c2, rows2, same);
      var v2 := Verdicts(c2, rows2, c1, rows1, same);
      forall i | 0 <= i < |rows1| ensures v1[i] == v2[i] {
        if RowMatches(c1, rows1[i], c2, rows2[i], same) {
          RowMatchesConverse(c1, rows1[i], c2, rows2[i], same);
        }
        if RowMatches(c2, rows2[i], c1, rows1[i], same) {
          RowMatchesConverse(c2, rows2[i], c1, rows1[i], same);
        }
      }
      assert v1 == v2;
    }
  }

}
