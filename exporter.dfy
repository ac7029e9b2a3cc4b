/**
 * The Excel exporter (koboapi/exporter.py): one sheet per table, named
 * after the survey, then after the repeat groups in level order, then
 * `Sheet_<n>`; every name made safe and cut to Excel's 31 characters.
 * Writing the workbook itself is not modelled: `ToExcel` returns the
 * sheets, in order, that it hands to the writer.
 */
module Exporting {
  import opened Results
  import opened JsonValues
  import opened Text
  import opened Models
  import opened Utils
  import Processing

  /** The sheet name of one repeat group: `group.label or group.simple_name.title()`. */
  function GroupSheetName(g: RepeatGroup): Json {
    if Truthy(g.labelValue) then g.labelValue else JStr(Title(g.SimpleName()))
  }

  /** The names appended for `groups`, in their order. */
  function GroupSheetNames(groups: seq<(string, RepeatGroup)>): (names: seq<Json>)
    ensures |names| == |groups|
  {
    if |groups| == 0 then []
    else GroupSheetNames(groups[..|groups| - 1]) + [GroupSheetName(groups[|groups| - 1].1)]
  }

  lemma GroupSheetNamesAt(groups: seq<(string, RepeatGroup)>, i: nat)
    requires i < |groups|
    ensures GroupSheetNames(groups)[i] == GroupSheetName(groups[i].1)
  {
    if i < |groups| - 1 {
      GroupSheetNamesAt(groups[..|groups| - 1], i);
    }
  }

  /** The padding name of position `k`: `f'Sheet_{k}'`. */
  function PadName(k: nat): string {
    "Sheet_" + NatToString(k)
  }

  /** The padding loop: append `Sheet_<len(names)>` while fewer than `count`. */
  function Pad(names: seq<Json>, count: int): seq<Json>
    decreases count - |names|
  {
    if |names| < count then Pad(names + [JStr(PadName(|names|))], count) else names
  }

  /** Padding keeps the names it is given and fills the positions up to
      `count` with their own `Sheet_<k>`. */
  lemma {:induction false} PadShape(names: seq<Json>, count: int)
    ensures |Pad(names, count)| == if |names| < count then count else |names|
    ensures Pad(names, count)[..|names|] == names
    ensures forall k :: |names| <= k < count ==> Pad(names, count)[k] == JStr(PadName(k))
    decreases count - |names|
  {
    if |names| < count {
      var more := names + [JStr(PadName(|names|))];
      PadShape(more, count);
      assert Pad(names, count)[..|names|] == more[..|names|];
    }
  }

  /** The names before padding: the base name, then the groups' names in
      level order when there is a structure. */
  function BaseNames(structure: Option<SurveyStructure>, baseName: string): seq<Json> {
    [JStr(baseName)] + if structure.Some? then GroupSheetNames(Processing.SortByLevel(structure.value.repeatGroups)) else []
  }

  /** `_generate_sheet_names(count, base_name)`. */
  function SheetNames(structure: Option<SurveyStructure>, count: int, baseName: string): seq<Json> {
    SliceTo(Pad(BaseNames(structure, baseName), count), count)
  }

  /** The groups whose names follow the base name. */
  function NamedGroups(structure: Option<SurveyStructure>): seq<(string, RepeatGroup)> {
    if structure.Some? then Processing.SortByLevel(structure.value.repeatGroups) else []
  }

  lemma SheetNamesLength(structure: Option<SurveyStructure>, count: nat, baseName: string)
    ensures |SheetNames(structure, count, baseName)| == count
  {
    PadShape(BaseNames(structure, baseName), count);
    SliceToPrefix(Pad(BaseNames(structure, baseName), count), count);
  }

  /** Exactly `count` names: the base name first, then one per repeat group
      in level order (label, or the title-cased simple name), then
      `Sheet_<position>`, as many as fit. */
  lemma SheetNamesShape(structure: Option<SurveyStructure>, count: nat, baseName: string)
    ensures |SheetNames(structure, count, baseName)| == count
    ensures count >= 1 ==> SheetNames(structure, count, baseName)[0] == JStr(baseName)
    ensures forall k :: 1 <= k < count && k <= |NamedGroups(structure)| ==>
      SheetNames(structure, count, baseName)[k] == GroupSheetName(NamedGroups(structure)[k - 1].1)
    ensures forall k :: 1 + |NamedGroups(structure)| <= k < count ==>
      SheetNames(structure, count, baseName)[k] == JStr(PadName(k))
  {
    var base := BaseNames(structure, baseName);
    var groups := NamedGroups(structure);
    PadShape(base, count);
    var padded := Pad(base, count);
    SliceToPrefix(padded, count);
    var r := SheetNames(structure, count, baseName);
    forall k | 1 <= k < count && k <= |groups|
      ensures r[k] == GroupSheetName(groups[k - 1].1)
    {
      assert r[k] == padded[k] == padded[..|base|][k] == base[k];
      GroupSheetNamesAt(groups, k - 1);
    }
    if count >= 1 {
      assert r[0] == padded[..|base|][0];
    }
  }

  /** The first `n` sheet names are all `str`, the only kind `safe_filename`
      is modelled on. */
  predicate AllTextUpTo(names: seq<Json>, n: nat)
    requires n <= |names|
  {
    n == 0 || (AllTextUpTo(names, n - 1) && names[n - 1].JStr?)
  }

  /** One name that is not a `str` spoils every longer prefix. */
  lemma {:induction false} NotAllText(names: seq<Json>, i: nat, n: nat)
    requires i < n <= |names| && !names[i].JStr?
    ensures !AllTextUpTo(names, n)
  {
    if n - 1 > i {
      NotAllText(names, i, n - 1);
    }
  }

  lemma {:induction false} AllTextUpToAll(names: seq<Json>, n: nat)
    requires n <= |names|
    requires forall i :: 0 <= i < n ==> names[i].JStr?
    ensures AllTextUpTo(names, n)
  {
    if n > 0 {
      AllTextUpToAll(names, n - 1);
    }
  }

  /** One sheet: the table under its name made safe and cut to Excel's 31
      characters. */
  function Sheet(name: Json, table: Processing.Table): (string, Processing.Table) {
    (SafeFilename(Str(name), 31), table)
  }

  /** The first `n` sheets, in order. */
  function SheetsUpTo(names: seq<Json>, tables: seq<Processing.Table>, n: nat): (sheets: seq<(string, Processing.Table)>)
    requires n <= |names| && n <= |tables|
    ensures |sheets| == n
  {
    seq(n, k requires 0 <= k < n && n <= |names| && n <= |tables| => Sheet(names[k], tables[k]))
  }

  /** The sheets `to_excel` hands to the writer, in order. */
  function Workbook(structure: Option<SurveyStructure>, tables: seq<Processing.Table>, surveyName: string): Result<seq<(string, Processing.Table)>> {
    var names := SheetNames(structure, |tables|, surveyName);
    SheetNamesLength(structure, |tables|, surveyName);
    if |tables| == 0 then Err(ValueError)
    else if !AllTextUpTo(names, |tables|) then Err(TypeError)
    else Ok(SheetsUpTo(names, tables, |tables|))
  }

  /** An empty list of tables is refused; otherwise every table becomes one
      sheet, in order, whose name is safe and at most 31 characters long,
      the first one named after the survey.  Without a structure every
      name is a string, so only the empty list fails. */
  lemma WorkbookShape(structure: Option<SurveyStructure>, tables: seq<Processing.Table>, surveyName: string)
    ensures Workbook(structure, tables, surveyName) == Err(ValueError) <==> |tables| == 0
    ensures Workbook(structure, tables, surveyName).Ok? ==>
      var sheets := Workbook(structure, tables, surveyName).value;
      |sheets| == |tables| && sheets[0].0 == SafeFilename(surveyName, 31) &&
      forall i :: 0 <= i < |sheets| ==>
        (sheets[i].1 == tables[i] && |sheets[i].0| <= 31 &&
         forall j :: 0 <= j < |sheets[i].0| ==> SafeChar(sheets[i].0[j]))
    ensures structure.None? ==> Workbook(structure, tables, surveyName).Ok? || |tables| == 0
  {
    var names := SheetNames(structure, |tables|, surveyName);
    SheetNamesShape(structure, |tables|, surveyName);
    var r := Workbook(structure, tables, surveyName);
    if r.Ok? {
      var sheets := r.value;
      forall i | 0 <= i < |sheets|
        ensures sheets[i].1 == tables[i] && |sheets[i].0| <= 31 && forall j :: 0 <= j < |sheets[i].0| ==> SafeChar(sheets[i].0[j])
      {
        SafeFilenameChars(Str(names[i]), 31);
      }
    }
    if structure.None? {
      AllTextUpToAll(names, |tables|);
    }
  }

  class DataExporter {
    /** The schema whose repeat groups name the sheets, if any. */
    const structure: Option<SurveyStructure>

    constructor(structure: Option<SurveyStructure>)
      ensures this.structure == structure
    {
      this.structure := structure;
    }

    /** `_generate_sheet_names`: the base name, the groups' names, padding,
        then the first `count`. */
    method GenerateSheetNames(count: int, baseName: string) returns (names: seq<Json>)
      ensures names == SheetNames(structure, count, baseName)
    {
      names := [JStr(baseName)];
      if structure.Some? {
        var sortedGroups := Processing.SortByLevel(structure.value.repeatGroups);
        for i := 0 to |sortedGroups|
          invariant names == [JStr(baseName)] + GroupSheetNames(sortedGroups[..i])
        {
          assert sortedGroups[..i + 1][..i] == sortedGroups[..i];
          names := names + [GroupSheetName(sortedGroups[i].1)];
        }
        assert sortedGroups[..|sortedGroups|] == sortedGroups;
      }
      ghost var base := names;
      assert base == BaseNames(structure, baseName);
      while |names| < count
        invariant Pad(names, count) == Pad(base, count)
        decreases count - |names|
      {
        names := names + [JStr(PadName(|names|))];
      }
      assert names == Pad(base, count);
      names := SliceTo(names, count);
    }

    /** `to_excel`: refuses an empty list, then names each table's sheet. */
    method ToExcel(tables: seq<Processing.Table>, surveyName: string) returns (r: Result<seq<(string, Processing.Table)>>)
      ensures r == Workbook(structure, tables, surveyName)
    {
      if |tables| == 0 {
        return Err(ValueError);
      }
      var sheetNames := GenerateSheetNames(|tables|, surveyName);
      SheetNamesLength(structure, |tables|, surveyName);
      var sheets: seq<(string, Processing.Table)> := [];
      for i := 0 to |tables|
        invariant AllTextUpTo(sheetNames, i)
        invariant sheets == SheetsUpTo(sheetNames, tables, i)
      {
        if !sheetNames[i].JStr? {
          NotAllText(sheetNames, i, |tables|);
          return Err(TypeError);
        }
        var cleanName := SafeFilename(sheetNames[i].s, 31);
        assert (cleanName, tables[i]) == Sheet(sheetNames[i], tables[i]);
        sheets := sheets + [(cleanName, tables[i])];
      }
      r := Ok(sheets);
    }
  }
}
