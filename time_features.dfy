/**
 * `extract_from_date(data, timestamp_column, suffix)` (utils.py): parses a
 * timestamp column in place and adds eleven calendar columns to the same
 * table, which it then returns.
 *
 * A table is a map from column name to column, all columns `height` rows
 * long.  Parsing a cell (`pd.to_datetime`) is a library call and is a
 * parameter of the operation.
 */
module TimeFeatures {
  import opened Outcomes
  import opened Timestamps
  import opened Binning

  /** One cell of a table. */
  datatype Cell =
    | Text(text: string)
    | Int(n: int)
    | Stamp(t: Timestamp)
    | Category(bucket: Option<string>)

  datatype ExtractError =
    | MissingColumn    // the timestamp column is not in the table (KeyError)
    | ParseError       // `pd.to_datetime` cannot parse one of its values
    | NotDatetimeLike  // `.dt` met a column that no longer holds timestamps

  /** What follows the suffix in the names of the derived columns, in the order `extract_from_date` assigns them. */
  const FieldTails: seq<string> := [
    "_year", "_month", "_month_name", "_year_month", "_date", "_week",
    "_day", "_dayofweek", "_day_name", "_hour", "day_time"]

  /** Names of the eleven derived columns: ten `suffix + "_" + field` and `suffix + "day_time"`. */
  function FeatureNames(suffix: string): (names: seq<string>)
    ensures |names| == 11
  {
    seq(11, k requires 0 <= k < 11 => suffix + FieldTails[k])
  }

  lemma TailAfterSuffix(suffix: string, tail: string)
    ensures (suffix + tail)[|suffix|..] == tail
  {
  }

  /** The eleven names are pairwise different, whatever the suffix. */
  lemma FeatureNamesDistinct(suffix: string)
    ensures forall k, l :: 0 <= k < l < 11 ==> FeatureNames(suffix)[k] != FeatureNames(suffix)[l]
  {
    var names := FeatureNames(suffix);
    forall k, l | 0 <= k < l < 11
      ensures names[k] != names[l]
    {
      TailAfterSuffix(suffix, FieldTails[k]);
      TailAfterSuffix(suffix, FieldTails[l]);
    }
  }

  /** The cell the k-th derived column holds for a timestamp. */
  function FeatureCell(k: nat, t: Timestamp): Cell
    requires k < 11
  {
    match k
    case 0 => Int(t.year)
    case 1 => Int(t.month)
    case 2 => Text(MonthName(t.month))
    case 3 => Text(YearMonth(t))
    case 4 => Text(DateStamp(t))
    case 5 => Int(t.week)
    case 6 => Int(t.day)
    case 7 => Int(t.dayOfWeek)
    case 8 => Text(DayName(t.dayOfWeek))
    case 9 => Int(t.hour)
    case _ => Category(DayTimeOf(t.hour))
  }

  function FeatureColumn(k: nat, stamps: seq<Timestamp>): (column: seq<Cell>)
    requires k < 11
    ensures |column| == |stamps|
  {
    seq(|stamps|, i requires 0 <= i < |stamps| => FeatureCell(k, stamps[i]))
  }

  /** The eleven derived columns, by name. */
  function Features(suffix: string, stamps: seq<Timestamp>): map<string, seq<Cell>>
  {
    var names := FeatureNames(suffix);
    map[names[0] := FeatureColumn(0, stamps), names[1] := FeatureColumn(1, stamps),
        names[2] := FeatureColumn(2, stamps), names[3] := FeatureColumn(3, stamps),
        names[4] := FeatureColumn(4, stamps), names[5] := FeatureColumn(5, stamps),
        names[6] := FeatureColumn(6, stamps), names[7] := FeatureColumn(7, stamps),
        names[8] := FeatureColumn(8, stamps), names[9] := FeatureColumn(9, stamps),
        names[10] := FeatureColumn(10, stamps)]
  }

  /** The derived column of each name holds that field of every row's timestamp. */
  lemma FeaturesLookup(suffix: string, stamps: seq<Timestamp>, k: nat)
    requires k < 11
    ensures FeatureNames(suffix)[k] in Features(suffix, stamps)
    ensures Features(suffix, stamps)[FeatureNames(suffix)[k]] == FeatureColumn(k, stamps)
  {
    var names := FeatureNames(suffix);
    forall l | k < l < 11
      ensures names[k] != names[l]
    {
      TailAfterSuffix(suffix, FieldTails[k]);
      TailAfterSuffix(suffix, FieldTails[l]);
    }
  }

  /** The derived columns are exactly the eleven derived names, with no column twice. */
  lemma FeaturesKeys(suffix: string, stamps: seq<Timestamp>)
    ensures forall name :: name in Features(suffix, stamps) <==> name in FeatureNames(suffix)
    ensures |Features(suffix, stamps)| == 11
  {
    var names := FeatureNames(suffix);
    var m := Features(suffix, stamps);
    FeatureNamesDistinct(suffix);
    assert m.Keys == set name | name in names;
    DistinctElements(names);
  }

  /** A sequence without repetitions has as many distinct elements as positions. */
  lemma {:induction false} DistinctElements<T>(s: seq<T>)
    requires forall k, l :: 0 <= k < l < |s| ==> s[k] != s[l]
    ensures |set x | x in s| == |s|
  {
    if s != [] {
      var rest := s[1..];
      DistinctElements(rest);
      assert (set x | x in s) == (set x | x in rest) + {s[0]};
      assert s[0] !in rest;
    }
  }

  /** Merging a table with the derived columns is assigning them one after the other. */
  lemma FeaturesAsAssignments(base: map<string, seq<Cell>>, suffix: string, stamps: seq<Timestamp>)
    ensures var n := FeatureNames(suffix);
      base + Features(suffix, stamps)
      == base[n[0] := FeatureColumn(0, stamps)][n[1] := FeatureColumn(1, stamps)]
             [n[2] := FeatureColumn(2, stamps)][n[3] := FeatureColumn(3, stamps)]
             [n[4] := FeatureColumn(4, stamps)][n[5] := FeatureColumn(5, stamps)]
             [n[6] := FeatureColumn(6, stamps)][n[7] := FeatureColumn(7, stamps)]
             [n[8] := FeatureColumn(8, stamps)][n[9] := FeatureColumn(9, stamps)]
             [n[10] := FeatureColumn(10, stamps)]
  {
  }

  /** The parsed timestamp column. */
  function StampColumn(stamps: seq<Timestamp>): (column: seq<Cell>)
    ensures |column| == |stamps|
  {
    seq(|stamps|, i requires 0 <= i < |stamps| => Stamp(stamps[i]))
  }

  /** `pd.to_datetime` on a column: every value parses, or the whole call fails. */
  function ParseColumn(column: seq<Cell>, parse: Cell -> Option<Timestamp>): (r: Option<seq<Timestamp>>)
    ensures r.Some? <==> forall i :: 0 <= i < |column| ==> parse(column[i]).Some?
    ensures r.Some? ==> |r.value| == |column| && forall i :: 0 <= i < |column| ==> parse(column[i]) == Some(r.value[i])
  {
    if forall i :: 0 <= i < |column| ==> parse(column[i]).Some? then
      Some(seq(|column|, i requires 0 <= i < |column| => parse(column[i]).value))
    else None
  }

  /** The timestamps of a column, when it holds timestamps only (what the `.dt` accessor requires). */
  function StampsOf(column: seq<Cell>): (r: Option<seq<Timestamp>>)
    ensures r.Some? <==> forall i :: 0 <= i < |column| ==> column[i].Stamp?
    ensures r.Some? ==> StampColumn(r.value) == column
  {
    if forall i :: 0 <= i < |column| ==> column[i].Stamp? then
      Some(seq(|column|, i requires 0 <= i < |column| => column[i].t))
    else None
  }

  /** Reading the timestamps back from a parsed column gives the timestamps that were parsed. */
  lemma StampsOfStampColumn(stamps: seq<Timestamp>)
    ensures StampsOf(StampColumn(stamps)) == Some(stamps)
  {
    var r := StampsOf(StampColumn(stamps));
    assert r.Some?;
    assert |r.value| == |stamps|;
    assert forall i :: 0 <= i < |stamps| ==> r.value[i] == stamps[i];
    assert r.value == stamps;
  }

  predicate IsIntColumn(column: seq<Cell>)
  {
    forall i :: 0 <= i < |column| ==> column[i].Int?
  }

  /** `pd.cut(hours, bins=[0, 12, 18, 23], labels=[...])` applied to an integer column. */
  function DayTimeColumn(hours: seq<Cell>): (column: seq<Cell>)
    requires IsIntColumn(hours)
    ensures |column| == |hours|
  {
    seq(|hours|, i requires 0 <= i < |hours| => Category(DayTimeOf(hours[i].n)))
  }

  /** The `day_time` column cut from the hour column is the bucket of each row's hour. */
  lemma DayTimeFromHours(stamps: seq<Timestamp>)
    ensures DayTimeColumn(FeatureColumn(9, stamps)) == FeatureColumn(10, stamps)
  {
  }

  /** Every column whose name is not a derived name is still there, unchanged. */
  ghost predicate Untouched(before: map<string, seq<Cell>>, after: map<string, seq<Cell>>, suffix: string)
  {
    forall name :: name in before && name !in FeatureNames(suffix) ==> name in after && after[name] == before[name]
  }

  /** The state `extract_from_date` leaves when nothing goes wrong. */
  function Extracted(columns: map<string, seq<Cell>>, timestampColumn: string, suffix: string,
                     stamps: seq<Timestamp>): map<string, seq<Cell>>
  {
    columns[timestampColumn := StampColumn(stamps)] + Features(suffix, stamps)
  }

  /** After `extract_from_date` the table has its old columns, the timestamp column and the derived ones, and no other. */
  lemma ExtractedKeys(columns: map<string, seq<Cell>>, timestampColumn: string, suffix: string,
                      stamps: seq<Timestamp>)
    ensures forall name :: name in Extracted(columns, timestampColumn, suffix, stamps) <==>
      name in columns || name == timestampColumn || name in FeatureNames(suffix)
  {
    FeaturesKeys(suffix, stamps);
  }

  /**
   * After `extract_from_date` the timestamp column holds the parsed
   * timestamps, each derived name holds its field, and every other column
   * is as it was.
   */
  lemma ExtractedValues(columns: map<string, seq<Cell>>, timestampColumn: string, suffix: string,
                        stamps: seq<Timestamp>, name: string)
    requires timestampColumn !in FeatureNames(suffix)
    requires name in columns || name == timestampColumn || name in FeatureNames(suffix)
    ensures var after := Extracted(columns, timestampColumn, suffix, stamps);
      && name in after
      && (name == timestampColumn ==> after[name] == StampColumn(stamps))
      && (forall k :: 0 <= k < 11 && name == FeatureNames(suffix)[k] ==> after[name] == FeatureColumn(k, stamps))
      && (name != timestampColumn && name !in FeatureNames(suffix) ==> after[name] == columns[name])
  {
    FeaturesKeys(suffix, stamps);
    forall k | 0 <= k < 11 && name == FeatureNames(suffix)[k]
      ensures Extracted(columns, timestampColumn, suffix, stamps)[name] == FeatureColumn(k, stamps)
    {
      FeaturesLookup(suffix, stamps, k);
    }
  }

  /** On a table with none of the derived names, `extract_from_date` adds exactly eleven columns. */
  lemma ExtractedAddsEleven(columns: map<string, seq<Cell>>, timestampColumn: string, suffix: string,
                            stamps: seq<Timestamp>)
    requires timestampColumn in columns
    requires forall k :: 0 <= k < 11 ==> FeatureNames(suffix)[k] !in columns
    ensures |Extracted(columns, timestampColumn, suffix, stamps)| == |columns| + 11
  {
    var features := Features(suffix, stamps);
    var updated := columns[timestampColumn := StampColumn(stamps)];
    FeaturesKeys(suffix, stamps);
    assert updated.Keys == columns.Keys;
    assert updated.Keys * features.Keys == {};
    assert Extracted(columns, timestampColumn, suffix, stamps).Keys == updated.Keys + features.Keys;
  }

  /** In every row the `_year_month` text is the first six characters of the `_date` text. */
  lemma YearMonthColumnIsDatePrefix(stamps: seq<Timestamp>)
    ensures forall i :: 0 <= i < |stamps| ==>
      && FeatureColumn(3, stamps)[i].Text? && FeatureColumn(4, stamps)[i].Text?
      && |FeatureColumn(4, stamps)[i].text| == 8
      && FeatureColumn(3, stamps)[i].text == FeatureColumn(4, stamps)[i].text[..6]
  {
    forall i | 0 <= i < |stamps|
      ensures FeatureColumn(3, stamps)[i].text == FeatureColumn(4, stamps)[i].text[..6]
      ensures |FeatureColumn(4, stamps)[i].text| == 8
    {
      YearMonthIsDatePrefix(stamps[i]);
    }
  }

  class Table {
    var columns: map<string, seq<Cell>>
    var height: nat

    ghost predicate Valid()
      reads this
    {
      forall name :: name in columns ==> |columns[name]| == height
    }

    constructor (columns: map<string, seq<Cell>>, height: nat)
      requires forall name :: name in columns ==> |columns[name]| == height
      ensures Valid() && this.columns == columns && this.height == height
    {
      this.columns := columns;
      this.height := height;
    }

    /**
     * What holds between the steps of `ExtractFromDate`: the columns other
     * than the derived ones are those of origin, and unless the source
     * column is itself a derived name it still holds the parsed timestamps.
     */
    ghost predicate Ready(source: string, suffix: string, stamps: seq<Timestamp>, origin: map<string, seq<Cell>>)
      reads this
    {
      && Valid()
      && source in columns
      && Untouched(origin, columns, suffix)
      && (source !in FeatureNames(suffix) ==> columns[source] == StampColumn(stamps))
    }

    /** `data[name] = column`: adds the column, or replaces the one of that name. */
    method Assign(name: string, column: seq<Cell>)
      requires Valid() && |column| == height
      modifies this
      ensures Valid() && height == old(height)
      ensures columns == old(columns)[name := column]
    {
      columns := columns[name := column];
    }

    /**
     * `data[suffix + tail_k] = data[source].dt.<field k>`: fails when the
     * source column holds anything but timestamps.  The ghost parameters
     * describe the progress of `ExtractFromDate` when the source column is
     * not itself one of the derived names: the parsed timestamps and the
     * table before the first derived column was added.
     */
    method Derive(source: string, suffix: string, k: nat,
                  ghost stamps: seq<Timestamp>, ghost origin: map<string, seq<Cell>>)
      returns (ok: bool, read: seq<Timestamp>)
      requires k < 10 && Ready(source, suffix, stamps, origin)
      modifies this
      ensures Ready(source, suffix, stamps, origin) && height == old(height)
      ensures ok <==> StampsOf(old(columns)[source]).Some?
      ensures ok ==> StampsOf(old(columns)[source]) == Some(read)
      ensures ok ==> columns == old(columns)[FeatureNames(suffix)[k] := FeatureColumn(k, read)]
      ensures !ok ==> columns == old(columns)
      ensures source !in FeatureNames(suffix) ==>
        ok && columns == old(columns)[FeatureNames(suffix)[k] := FeatureColumn(k, stamps)]
    {
      var names := FeatureNames(suffix);
      var found := StampsOf(columns[source]);
      ok := found.Some?;
      read := if ok then found.value else [];
      if source !in names {
        StampsOfStampColumn(stamps);
      }
      if ok {
        Assign(names[k], FeatureColumn(k, read));
      }
    }

    /**
     * `extract_from_date(data, timestamp_column, suffix)`: replaces the
     * timestamp column by its parsed form, then assigns the eleven derived
     * columns one after the other, each `.dt` field read afresh from the
     * timestamp column and `day_time` cut from the hour column; returns
     * this same table.
     */
    method ExtractFromDate(timestampColumn: string, suffix: string, parse: Cell -> Option<Timestamp>)
      returns (r: Result<Table, ExtractError>)
      requires Valid()
      modifies this
      ensures Valid() && height == old(height)
      ensures r.Ok? ==> r.value == this
      ensures timestampColumn !in old(columns) ==> r == Err(MissingColumn) && columns == old(columns)
      ensures timestampColumn in old(columns) && ParseColumn(old(columns)[timestampColumn], parse).None? ==>
        r == Err(ParseError) && columns == old(columns)
      ensures timestampColumn in old(columns) && ParseColumn(old(columns)[timestampColumn], parse).Some?
              && timestampColumn !in FeatureNames(suffix) ==>
        && r == Ok(this)
        && columns == Extracted(old(columns), timestampColumn, suffix,
                                ParseColumn(old(columns)[timestampColumn], parse).value)
      ensures r == Err(NotDatetimeLike) ==> timestampColumn in FeatureNames(suffix)
      ensures forall name :: name in old(columns) && name != timestampColumn && name !in FeatureNames(suffix) ==>
        name in columns && columns[name] == old(columns)[name]
    {
      if timestampColumn !in columns {
        return Err(MissingColumn);
      }
      var parsed := ParseColumn(columns[timestampColumn], parse);
      if parsed.None? {
        return Err(ParseError);
      }
      var stamps := parsed.value;
      ghost var base := columns[timestampColumn := StampColumn(stamps)];
      Assign(timestampColumn, StampColumn(stamps));
      var ok := AddFeatures(timestampColumn, suffix, stamps, base);
      r := if ok then Ok(this) else Err(NotDatetimeLike);
    }

    /**
     * The assignments of the eleven derived columns, in the order of `extract_from_date`;
     * stops at the first `.dt` that meets a column without timestamps.
     */
    method AddFeatures(timestampColumn: string, suffix: string,
                       ghost stamps: seq<Timestamp>, ghost base: map<string, seq<Cell>>) returns (ok: bool)
      requires Valid() && timestampColumn in columns
      requires timestampColumn !in FeatureNames(suffix) ==>
        timestampColumn in base && base[timestampColumn] == StampColumn(stamps) && columns == base
      modifies this
      ensures Valid() && height == old(height)
      ensures timestampColumn !in FeatureNames(suffix) ==> ok && columns == base + Features(suffix, stamps)
      ensures Untouched(old(columns), columns, suffix)
    {
      var names := FeatureNames(suffix);
      ghost var origin := columns;
      ok := AddDateFeatures(timestampColumn, suffix, stamps, origin);
      if !ok { return; }
      var read;
      ok, read := AddWeekAndHourFeatures(timestampColumn, suffix, stamps, origin);
      if !ok { return; }
      var hours := columns[names[9]];
      assert IsIntColumn(FeatureColumn(9, read));
      Assign(names[10], DayTimeColumn(hours));
      if timestampColumn !in names {
        DayTimeFromHours(stamps);
        FeaturesAsAssignments(base, suffix, stamps);
      }
    }

    /** The columns `_year`, `_month`, `_month_name`, `_year_month` and `_date`. */
    method AddDateFeatures(timestampColumn: string, suffix: string,
                           ghost stamps: seq<Timestamp>, ghost origin: map<string, seq<Cell>>) returns (ok: bool)
      requires Ready(timestampColumn, suffix, stamps, origin)
      modifies this
      ensures Ready(timestampColumn, suffix, stamps, origin) && height == old(height)
      ensures timestampColumn !in FeatureNames(suffix) ==>
        && ok
        && var n := FeatureNames(suffix);
           columns == old(columns)[n[0] := FeatureColumn(0, stamps)][n[1] := FeatureColumn(1, stamps)]
                                  [n[2] := FeatureColumn(2, stamps)][n[3] := FeatureColumn(3, stamps)]
                                  [n[4] := FeatureColumn(4, stamps)]
    {
      var read;
      ok, read := Derive(timestampColumn, suffix, 0, stamps, origin);
      if !ok { return; }
      ok, read := Derive(timestampColumn, suffix, 1, stamps, origin);
      if !ok { return; }
      ok, read := Derive(timestampColumn, suffix, 2, stamps, origin);
      if !ok { return; }
      ok, read := Derive(timestampColumn, suffix, 3, stamps, origin);
      if !ok { return; }
      ok, read := Derive(timestampColumn, suffix, 4, stamps, origin);
    }

    /** The columns `_week`, `_day`, `_dayofweek`, `_day_name` and `_hour`. */
    method AddWeekAndHourFeatures(timestampColumn: string, suffix: string,
                                  ghost stamps: seq<Timestamp>, ghost origin: map<string, seq<Cell>>)
      returns (ok: bool, read: seq<Timestamp>)
      requires Ready(timestampColumn, suffix, stamps, origin)
      modifies this
      ensures Ready(timestampColumn, suffix, stamps, origin) && height == old(height)
      ensures ok ==> FeatureNames(suffix)[9] in columns && columns[FeatureNames(suffix)[9]] == FeatureColumn(9, read)
      ensures timestampColumn !in FeatureNames(suffix) ==>
        && ok
        && var n := FeatureNames(suffix);
           columns == old(columns)[n[5] := FeatureColumn(5, stamps)][n[6] := FeatureColumn(6, stamps)]
                                  [n[7] := FeatureColumn(7, stamps)][n[8] := FeatureColumn(8, stamps)]
                                  [n[9] := FeatureColumn(9, stamps)]
    {
      ok, read := Derive(timestampColumn, suffix, 5, stamps, origin);
      if !ok { return; }
      ok, read := Derive(timestampColumn, suffix, 6, stamps, origin);
      if !ok { return; }
      ok, read := Derive(timestampColumn, suffix, 7, stamps, origin);
      if !ok { return; }
      ok, read := Derive(timestampColumn, suffix, 8, stamps, origin);
      if !ok { return; }
      ok, read := Derive(timestampColumn, suffix, 9, stamps, origin);
    }
  }
}
