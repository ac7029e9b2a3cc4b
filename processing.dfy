/**
 * Flattening submissions into tables (koboapi/data_processor.py).
 *
 * A table is a sequence of rows and a row an ordered dict from column name
 * to value; pandas is not modelled, and a table is empty exactly when it has
 * no rows (every row built here has at least one column).  The specification
 * functions below describe, submission by submission and element by element,
 * the rows that the loops of `DataProcessor` build; the loops are proved to
 * build exactly those, and the lemmas state what the rows are.
 */
module Processing {
  import opened Results
  import opened Dicts
  import opened JsonValues
  import opened Text
  import opened Models

  type Row = Dict<string, Json>
  type Table = seq<Row>

  /** The columns every main-table row starts with. */
  const MetadataColumns: seq<string> := [
    "_id", "__version__",
    "_xform_id_string", "_uuid", "_attachments",
    "_status", "_geolocation", "_submission_time", "_tags",
    "_notes", "_validation_status", "_submitted_by"
  ]

  /** `prefix` followed by the items of `r`, or the error of `r`: how a loop
      that appends as it goes relates to the rest of its work. */
  function Then<T>(prefix: seq<T>, r: Result<seq<T>>): Result<seq<T>> {
    if r.Err? then r else Ok(prefix + r.value)
  }

  lemma ThenNil<T>(r: Result<seq<T>>)
    ensures Then([], r) == r
  {
    if r.Ok? {
      assert [] + r.value == r.value;
    }
  }

  lemma ThenDone<T>(rows: seq<T>)
    ensures Then(rows, Ok([])) == Ok(rows)
  {
    assert rows + [] == rows;
  }

  lemma ThenAssoc<T>(a: seq<T>, b: seq<T>, r: Result<seq<T>>)
    ensures Then(a, Then(b, r)) == Then(a + b, r)
  {
    if r.Ok? {
      assert a + (b + r.value) == (a + b) + r.value;
    }
  }

  // ---------------------------------------------------------------------
  // Rows
  // ---------------------------------------------------------------------

  /** One `(name, None)` pair per name. */
  function NullCells(names: seq<string>): seq<(string, Json)> {
    seq(|names|, i requires 0 <= i < |names| => (names[i], JNull))
  }

  lemma NullCellsKeys(names: seq<string>)
    ensures Keys(NullCells(names)) == names
  {
  }

  lemma NullCellsSnoc(names: seq<string>, i: nat)
    requires i < |names|
    ensures NullCells(names[..i + 1]) == NullCells(names[..i]) + [(names[i], JNull)]
  {
  }

  /** Setting one more column to None extends the run of None cells. */
  lemma NullCellsStep(d: Row, names: seq<string>, i: nat)
    requires i < |names|
    ensures SetAll(d, NullCells(names[..i + 1])) == Set(SetAll(d, NullCells(names[..i])), names[i], JNull)
  {
    NullCellsSnoc(names, i);
    SetAllSnoc(d, NullCells(names[..i]), (names[i], JNull));
  }

  /** The column a question fills: its own name, in dict order. */
  function ColumnNames(questions: Dict<string, Question>): seq<string> {
    seq(|questions|, i requires 0 <= i < |questions| => questions[i].1.OriginalName())
  }

  /** A main-table row before filling: every metadata column, then every
      question's column, set to None. */
  function BlankRow(questions: Dict<string, Question>): Row {
    SetAll([], NullCells(MetadataColumns + ColumnNames(questions)))
  }

  /** The metadata columns are set first, then the questions' columns. */
  lemma BlankRowParts(questions: Dict<string, Question>)
    ensures BlankRow(questions) == SetAll(SetAll([], NullCells(MetadataColumns)), NullCells(ColumnNames(questions)))
  {
    var names := ColumnNames(questions);
    assert NullCells(MetadataColumns + names) == NullCells(MetadataColumns) + NullCells(names);
    SetAllAppend([], NullCells(MetadataColumns), NullCells(names));
  }

  lemma ColumnNamesIn(questions: Dict<string, Question>)
    ensures forall k :: k in ColumnNames(questions) <==> exists e :: e in questions && e.1.OriginalName() == k
  {
    forall k | k in ColumnNames(questions)
      ensures exists e :: e in questions && e.1.OriginalName() == k
    {
      var i :| 0 <= i < |questions| && ColumnNames(questions)[i] == k;
      assert questions[i] in questions;
    }
    forall e | e in questions
      ensures e.1.OriginalName() in ColumnNames(questions)
    {
      var i :| 0 <= i < |questions| && questions[i] == e;
      assert ColumnNames(questions)[i] == e.1.OriginalName();
    }
  }

  /** A blank row has exactly the metadata columns and the question columns,
      each once, all None. */
  lemma BlankRowShape(questions: Dict<string, Question>)
    ensures Distinct(BlankRow(questions))
    ensures forall k :: k in Keys(BlankRow(questions)) <==>
      (k in MetadataColumns || exists e :: e in questions && e.1.OriginalName() == k)
    ensures forall p :: p in BlankRow(questions) ==> p.1 == JNull
  {
    var names := MetadataColumns + ColumnNames(questions);
    var cells := NullCells(names);
    SetAllDistinct([], cells);
    SetAllKeysIn([], cells);
    NullCellsKeys(names);
    ColumnNamesIn(questions);
    forall k
      ensures k in Keys(BlankRow(questions)) <==> k in MetadataColumns || k in ColumnNames(questions)
    {
      assert k in Keys(BlankRow(questions)) <==> k in names;
    }
    forall p | p in BlankRow(questions)
      ensures p.1 == JNull
    {
      SetAllMembers([], cells, p);
    }
  }

  /** The columns of a blank row, in order: the metadata columns, then the
      question columns in dict order, each where it first occurs; when no
      column name repeats, exactly that sequence. */
  lemma BlankRowColumns(questions: Dict<string, Question>)
    ensures Keys(BlankRow(questions)) == FirstOccurrences(MetadataColumns + ColumnNames(questions))
    ensures Unique(MetadataColumns + ColumnNames(questions)) ==>
      Keys(BlankRow(questions)) == MetadataColumns + ColumnNames(questions)
  {
    var names := MetadataColumns + ColumnNames(questions);
    SetAllKeysOrder(NullCells(names));
    NullCellsKeys(names);
    if Unique(names) {
      FirstOccurrencesUnique(names);
    }
  }

  /** A submission field fills column `c`: it is not a list and the text
      after its last `/` is `c`. */
  predicate Hits(e: (string, Json), c: string) {
    !e.1.JList? && LastSegment(e.0) == c
  }

  /** The assignments filling makes, in field order: one per non-list field
      whose last segment names one of `cols`. */
  function Writes(cols: seq<string>, data: Obj): seq<(string, Json)> {
    if |data| == 0 then []
    else
      var e := data[|data| - 1];
      Writes(cols, data[..|data| - 1]) + (if !e.1.JList? && LastSegment(e.0) in cols then [(LastSegment(e.0), e.1)] else [])
  }

  lemma WritesSnoc(cols: seq<string>, data: Obj, i: nat)
    requires i < |data|
    ensures Writes(cols, data[..i + 1]) == Writes(cols, data[..i]) +
      (if !data[i].1.JList? && LastSegment(data[i].0) in cols then [(LastSegment(data[i].0), data[i].1)] else [])
  {
    assert data[..i + 1][..i] == data[..i];
  }

  lemma {:induction false} WritesCols(cols: seq<string>, data: Obj)
    ensures forall w :: w in Writes(cols, data) ==> w.0 in cols
  {
    if |data| > 0 {
      WritesCols(cols, data[..|data| - 1]);
    }
  }

  /** `row` after `_fill_row_data(row, data)`. */
  function Filled(row: Row, data: Obj): Row {
    SetAll(row, Writes(Keys(row), data))
  }

  lemma {:induction false} SetAllPresent<K, V>(d: Dict<K, V>, es: seq<(K, V)>)
    requires forall e :: e in es ==> e.0 in Keys(d)
    ensures Keys(SetAll(d, es)) == Keys(d)
  {
    if |es| > 0 {
      var init := es[..|es| - 1];
      assert forall e :: e in init ==> e in es;
      SetAllPresent(d, init);
      assert es[|es| - 1] in es;
      SetKeys(SetAll(d, init), es[|es| - 1].0, es[|es| - 1].1);
    }
  }

  /** Filling never adds, removes or reorders a column, and keeps a row a dict. */
  lemma FillKeys(row: Row, data: Obj)
    ensures Keys(Filled(row, data)) == Keys(row)
    ensures Distinct(row) ==> Distinct(Filled(row, data))
  {
    WritesCols(Keys(row), data);
    SetAllPresent(row, Writes(Keys(row), data));
    if Distinct(row) {
      SetAllDistinct(row, Writes(Keys(row), data));
    }
  }

  /** The field at `j` is the last one that fills `c`. */
  predicate LastHit(data: Obj, c: string, j: int) {
    0 <= j < |data| && Hits(data[j], c) && forall j' :: j < j' < |data| ==> !Hits(data[j'], c)
  }

  lemma LastForSnoc<K, V>(es: seq<(K, V)>, p: (K, V), k: K)
    ensures LastFor(es + [p], k) == if p.0 == k then Some(p.1) else LastFor(es, k)
  {
    assert (es + [p])[..|es|] == es;
  }

  lemma {:induction false} WritesNone(cols: seq<string>, data: Obj, c: string)
    requires c !in cols || forall j :: 0 <= j < |data| ==> !Hits(data[j], c)
    ensures LastFor(Writes(cols, data), c) == None
  {
    if |data| > 0 {
      var n := |data| - 1;
      var init, e := data[..n], data[n];
      assert forall j :: 0 <= j < n ==> init[j] == data[j];
      WritesNone(cols, init, c);
      WritesSnoc(cols, data, n);
      assert data[..n + 1] == data;
      if !e.1.JList? && LastSegment(e.0) in cols {
        LastForSnoc(Writes(cols, init), (LastSegment(e.0), e.1), c);
      } else {
        assert Writes(cols, init) + [] == Writes(cols, init);
      }
    }
  }

  lemma {:induction false} WritesLastHit(cols: seq<string>, data: Obj, c: string, j: nat)
    requires LastHit(data, c, j) && c in cols
    ensures LastFor(Writes(cols, data), c) == Some(data[j].1)
  {
    var n := |data| - 1;
    var init, e := data[..n], data[n];
    WritesSnoc(cols, data, n);
    assert data[..n + 1] == data;
    if j == n {
      LastForSnoc(Writes(cols, init), (c, e.1), c);
    } else {
      assert LastHit(init, c, j);
      WritesLastHit(cols, init, c, j);
      if !e.1.JList? && LastSegment(e.0) in cols {
        LastForSnoc(Writes(cols, init), (LastSegment(e.0), e.1), c);
      } else {
        assert Writes(cols, init) + [] == Writes(cols, init);
      }
    }
  }

  /** After filling, a column holds the value of the last field that fills it,
      and a column no field fills keeps its value. */
  lemma FillValues(row: Row, data: Obj, c: string)
    ensures forall j :: LastHit(data, c, j) && c in Keys(row) ==> Get(Filled(row, data), c) == Some(data[j].1)
    ensures (forall j :: 0 <= j < |data| ==> !Hits(data[j], c)) ==> Get(Filled(row, data), c) == Get(row, c)
    ensures c !in Keys(row) ==> Get(Filled(row, data), c) == None
  {
    SetAllLastWins(row, Writes(Keys(row), data), c);
    if c !in Keys(row) {
      GetLaws(row, c);
    }
    if c !in Keys(row) || forall j :: 0 <= j < |data| ==> !Hits(data[j], c) {
      WritesNone(Keys(row), data, c);
    }
    forall j | LastHit(data, c, j) && c in Keys(row)
      ensures Get(Filled(row, data), c) == Some(data[j].1)
    {
      WritesLastHit(Keys(row), data, c, j);
    }
  }

  // ---------------------------------------------------------------------
  // Tables
  // ---------------------------------------------------------------------

  /** The main table: one filled blank row per submission, in order. */
  function MainTable(structure: SurveyStructure, submissions: seq<Obj>): Table {
    var blank := BlankRow(structure.GetQuestionsByPath(""));
    seq(|submissions|, i requires 0 <= i < |submissions| => Filled(blank, submissions[i]))
  }

  /** The main table has one row per submission, in order.  Row `i` has
      exactly the metadata columns and the columns of the root questions,
      whatever submission `i` holds, and column `c` holds the submission's last
      field for it, or None when no field fills it. */
  lemma MainTableRow(structure: SurveyStructure, submissions: seq<Obj>, i: nat, c: string)
    requires i < |submissions|
    ensures |MainTable(structure, submissions)| == |submissions|
    ensures forall k :: k in Keys(MainTable(structure, submissions)[i]) <==>
      (k in MetadataColumns || exists e :: e in structure.questions && e.1.path == "" && e.1.OriginalName() == k)
    ensures Distinct(MainTable(structure, submissions)[i])
    ensures forall j :: c in Keys(MainTable(structure, submissions)[i]) && LastHit(submissions[i], c, j) ==>
      Get(MainTable(structure, submissions)[i], c) == Some(submissions[i][j].1)
    ensures c in Keys(MainTable(structure, submissions)[i]) && (forall j :: 0 <= j < |submissions[i]| ==> !Hits(submissions[i][j], c)) ==>
      Get(MainTable(structure, submissions)[i], c) == Some(JNull)
  {
    var qs := structure.GetQuestionsByPath("");
    var blank := BlankRow(qs);
    var row := MainTable(structure, submissions)[i];
    assert row == Filled(blank, submissions[i]);
    BlankRowShape(qs);
    FillKeys(blank, submissions[i]);
    FillValues(blank, submissions[i], c);
    if c in Keys(blank) {
      GetLaws(blank, c);
      var v := Get(blank, c);
      assert (c, v.value) in blank;
    }
  }

  /** Every row of the main table has the blank row's columns in the blank
      row's order: the metadata columns, then the root questions' columns. */
  lemma MainTableColumns(structure: SurveyStructure, submissions: seq<Obj>, i: nat)
    requires i < |submissions|
    ensures Keys(MainTable(structure, submissions)[i])
         == FirstOccurrences(MetadataColumns + ColumnNames(structure.GetQuestionsByPath("")))
  {
    var qs := structure.GetQuestionsByPath("");
    FillKeys(BlankRow(qs), submissions[i]);
    BlankRowColumns(qs);
  }

  /** The questions of a repeat group's table: those whose path is the
      group's name or lies below it. */
  function GroupQuestions(structure: SurveyStructure, group: RepeatGroup): (r: Dict<string, Question>)
    ensures forall e :: e in r <==>
      (e in structure.questions && (e.1.path == group.name || StartsWith(e.1.path, group.name + "/")))
    ensures structure.Valid() ==> Distinct(r)
  {
    Filter(structure.questions, (q: Question) => q.path == group.name || StartsWith(q.path, group.name + "/"))
  }

  /** `submission.get('_id', submission.get('meta/instanceID', ''))`. */
  function SubmissionId(submission: Obj): (id: Json)
    ensures Get(submission, "_id").Some? ==> id == Get(submission, "_id").value
    ensures Get(submission, "_id").None? && Get(submission, "meta/instanceID").Some? ==> id == Get(submission, "meta/instanceID").value
    ensures Get(submission, "_id").None? && Get(submission, "meta/instanceID").None? ==> id == JStr("")
  {
    Get(submission, "_id").GetOr(Get(submission, "meta/instanceID").GetOr(JStr("")))
  }

  /** The row a level-0 repeat element starts from. */
  function LevelZeroHeader(submissionId: Json): Row {
    [("_parent_id", submissionId)]
  }

  /** The synthetic id of the `i`-th (0-based) element of the outer group. */
  function OuterId(submissionId: Json, i: nat): string {
    Str(submissionId) + "_" + NatToString(i + 1)
  }

  /** The row a nested repeat element starts from: the submission's id and
      the id of the outer element it sits in (the later key wins should the
      two coincide, as in a dict display). */
  function NestedHeader(submissionId: Json, outer: string, i: nat): Row {
    Set([("_parent_id", submissionId)], "_" + outer + "_id", JStr(OuterId(submissionId, i)))
  }

  /** A repeat element's row: the header, the group's columns set to None,
      then the element's fields. */
  function GroupRow(header: Row, questions: Dict<string, Question>, item: Obj): Row {
    Filled(SetAll(header, NullCells(ColumnNames(questions))), item)
  }

  /** The rows of `items[i..]`, one per element; an element that is not a
      dict raises AttributeError. */
  function ItemRowsFrom(header: Row, questions: Dict<string, Question>, items: seq<Json>, i: nat): Result<Table>
    requires i <= |items|
    decreases |items| - i
  {
    if i == |items| then Ok([])
    else if !items[i].JObj? then Err(AttributeError)
    else Then([GroupRow(header, questions, items[i].fields)], ItemRowsFrom(header, questions, items, i + 1))
  }

  lemma ItemRowsStep(header: Row, questions: Dict<string, Question>, items: seq<Json>, i: nat, rows: Table)
    requires i < |items|
    ensures Then(rows, ItemRowsFrom(header, questions, items, i)) ==
      if items[i].JObj? then Then(rows + [GroupRow(header, questions, items[i].fields)], ItemRowsFrom(header, questions, items, i + 1))
      else Err(AttributeError)
  {
    if items[i].JObj? {
      ThenAssoc(rows, [GroupRow(header, questions, items[i].fields)], ItemRowsFrom(header, questions, items, i + 1));
    }
  }

  /** A present key's value or an empty list: `d.get(k, [])`. */
  function GetList(d: Obj, k: string): Json {
    Get(d, k).GetOr(JList([]))
  }

  /** The rows of the inner group for outer elements `firsts[i..]`. */
  function OuterRowsFrom(submissionId: Json, outer: string, inner: string, questions: Dict<string, Question>,
                         firsts: seq<Json>, i: nat): Result<Table>
    requires i <= |firsts|
    decreases |firsts| - i
  {
    if i == |firsts| then Ok([])
    else if !firsts[i].JObj? then Err(AttributeError)
    else
      var seconds :- Iterate(GetList(firsts[i].fields, outer + "/" + inner));
      var rows :- ItemRowsFrom(NestedHeader(submissionId, outer, i), questions, seconds, 0);
      Then(rows, OuterRowsFrom(submissionId, outer, inner, questions, firsts, i + 1))
  }

  lemma OuterRowsStep(submissionId: Json, outer: string, inner: string, questions: Dict<string, Question>,
                      firsts: seq<Json>, i: nat, rows: Table, seconds: seq<Json>, part: Table)
    requires i < |firsts| && firsts[i].JObj?
    requires Iterate(GetList(firsts[i].fields, outer + "/" + inner)) == Ok(seconds)
    requires ItemRowsFrom(NestedHeader(submissionId, outer, i), questions, seconds, 0) == Ok(part)
    ensures Then(rows, OuterRowsFrom(submissionId, outer, inner, questions, firsts, i)) ==
      Then(rows + part, OuterRowsFrom(submissionId, outer, inner, questions, firsts, i + 1))
  {
    ThenAssoc(rows, part, OuterRowsFrom(submissionId, outer, inner, questions, firsts, i + 1));
  }

  /** A failing inner element fails the whole outer element. */
  lemma OuterRowsPartErr(submissionId: Json, outer: string, inner: string, questions: Dict<string, Question>,
                         firsts: seq<Json>, i: nat, rows: Table, seconds: seq<Json>)
    requires i < |firsts| && firsts[i].JObj?
    requires Iterate(GetList(firsts[i].fields, outer + "/" + inner)) == Ok(seconds)
    requires ItemRowsFrom(NestedHeader(submissionId, outer, i), questions, seconds, 0).Err?
    ensures Then(rows, OuterRowsFrom(submissionId, outer, inner, questions, firsts, i)) ==
      Err(ItemRowsFrom(NestedHeader(submissionId, outer, i), questions, seconds, 0).error)
  {
  }

  /** `_extract_nested_repeat_data`: only names of exactly two parts give rows. */
  function NestedRows(submission: Obj, parts: seq<string>, questions: Dict<string, Question>, submissionId: Json): Result<Table> {
    if |parts| >= 2 then
      var firsts :- Iterate(GetList(submission, parts[0]));
      if |parts| == 2 then OuterRowsFrom(submissionId, parts[0], parts[1], questions, firsts, 0)
      else Ok([])
    else Ok([])
  }

  /** `_extract_repeat_data`: the rows one submission gives a repeat group. */
  function GroupRows(submission: Obj, group: RepeatGroup, questions: Dict<string, Question>, submissionId: Json): Result<Table> {
    if group.level == 0 then
      var items :- Iterate(GetList(submission, group.SimpleName()));
      ItemRowsFrom(LevelZeroHeader(submissionId), questions, items, 0)
    else NestedRows(submission, Split(group.name, '/'), questions, submissionId)
  }

  /** A repeat row has exactly the header's columns and the group's question
      columns; filling leaves the header's values in place unless a question
      column or a field of the element has the same name. */
  lemma GroupRowShape(header: Row, questions: Dict<string, Question>, item: Obj, c: string)
    ensures forall k :: k in Keys(GroupRow(header, questions, item)) <==>
      (k in Keys(header) || exists e :: e in questions && e.1.OriginalName() == k)
    ensures Distinct(header) ==> Distinct(GroupRow(header, questions, item))
    ensures c !in ColumnNames(questions) && (forall j :: 0 <= j < |item| ==> !Hits(item[j], c)) ==>
      Get(GroupRow(header, questions, item), c) == Get(header, c)
  {
    var cells := NullCells(ColumnNames(questions));
    var start := SetAll(header, cells);
    SetAllKeysIn(header, cells);
    NullCellsKeys(ColumnNames(questions));
    ColumnNamesIn(questions);
    FillKeys(start, item);
    assert GroupRow(header, questions, item) == Filled(start, item);
    forall k
      ensures k in Keys(GroupRow(header, questions, item)) <==> (k in Keys(header) || k in ColumnNames(questions))
    {
      assert k in Keys(start) <==> k in Keys(header) || k in Keys(cells);
    }
    if Distinct(header) {
      SetAllDistinct(header, cells);
    }
    FillValues(start, item, c);
    if c !in ColumnNames(questions) {
      SetAllLastWins(header, cells, c);
      NullCellsNone(ColumnNames(questions), c);
    }
  }

  lemma {:induction false} NullCellsNone(names: seq<string>, c: string)
    requires c !in names
    ensures LastFor(NullCells(names), c) == None
  {
    if |names| > 0 {
      var n := |names| - 1;
      NullCellsNone(names[..n], c);
      assert NullCells(names)[..n] == NullCells(names[..n]);
    }
  }

  /** The elements from `i` on give rows exactly when they are all dicts. */
  lemma {:induction false} ItemRowsOk(header: Row, questions: Dict<string, Question>, items: seq<Json>, i: nat)
    requires i <= |items|
    ensures ItemRowsFrom(header, questions, items, i).Ok? <==> forall k :: i <= k < |items| ==> items[k].JObj?
    decreases |items| - i
  {
    if i < |items| {
      ItemRowsOk(header, questions, items, i + 1);
      ItemRowsStep(header, questions, items, i, []);
      ThenNil(ItemRowsFrom(header, questions, items, i));
      if forall k :: i <= k < |items| ==> items[k].JObj? {
        assert items[i].JObj?;
      }
    }
  }

  /** ... and then one row each, in order. */
  lemma {:induction false} ItemRowsShape(header: Row, questions: Dict<string, Question>, items: seq<Json>, i: nat)
    requires i <= |items|
    requires ItemRowsFrom(header, questions, items, i).Ok?
    ensures |ItemRowsFrom(header, questions, items, i).value| == |items| - i
    ensures forall k :: i <= k < |items| ==> (items[k].JObj? &&
      ItemRowsFrom(header, questions, items, i).value[k - i] == GroupRow(header, questions, items[k].fields))
    decreases |items| - i
  {
    if i < |items| {
      var rest := ItemRowsFrom(header, questions, items, i + 1);
      var row := GroupRow(header, questions, items[i].fields);
      assert ItemRowsFrom(header, questions, items, i) == Then([row], rest);
      ItemRowsShape(header, questions, items, i + 1);
      var rows := [row] + rest.value;
      forall k | i < k < |items|
        ensures rows[k - i] == GroupRow(header, questions, items[k].fields)
      {
        assert rows[k - i] == rest.value[k - (i + 1)];
      }
    }
  }

  /** All the elements give one row each, in order. */
  lemma ItemRowsAll(header: Row, questions: Dict<string, Question>, items: seq<Json>)
    requires ItemRowsFrom(header, questions, items, 0).Ok?
    ensures |ItemRowsFrom(header, questions, items, 0).value| == |items|
    ensures forall k :: 0 <= k < |items| ==> (items[k].JObj? &&
      ItemRowsFrom(header, questions, items, 0).value[k] == GroupRow(header, questions, items[k].fields))
  {
    ItemRowsShape(header, questions, items, 0);
    forall k | 0 <= k < |items|
      ensures items[k].JObj? && ItemRowsFrom(header, questions, items, 0).value[k] == GroupRow(header, questions, items[k].fields)
    {
      assert k - 0 == k;
    }
  }

  /** A level-0 group reads the list under its own name: a submission without
      that key gives no rows, and otherwise every element gives one row that
      starts from `_parent_id` and the group's columns. */
  lemma LevelZeroRows(submission: Obj, group: RepeatGroup, questions: Dict<string, Question>, submissionId: Json)
    requires group.level == 0
    ensures Get(submission, group.SimpleName()).None? ==> GroupRows(submission, group, questions, submissionId) == Ok([])
    ensures var items := Iterate(GetList(submission, group.SimpleName()));
      GroupRows(submission, group, questions, submissionId).Ok? ==>
        items.Ok? &&
        |GroupRows(submission, group, questions, submissionId).value| == |items.value| &&
        forall k :: 0 <= k < |items.value| ==> (items.value[k].JObj? &&
          GroupRows(submission, group, questions, submissionId).value[k] == GroupRow(LevelZeroHeader(submissionId), questions, items.value[k].fields))
  {
    var items := Iterate(GetList(submission, group.SimpleName()));
    if items.Ok? && ItemRowsFrom(LevelZeroHeader(submissionId), questions, items.value, 0).Ok? {
      ItemRowsAll(LevelZeroHeader(submissionId), questions, items.value);
    }
  }

  /** The elements an outer element holds under the inner group's full key
      (none when it holds something that is not a list of them). */
  function SecondsOf(first: Json, key: string): seq<Json> {
    if first.JObj? && Iterate(GetList(first.fields, key)).Ok? then Iterate(GetList(first.fields, key)).value else []
  }

  /** How many inner elements the outer elements from `i` on hold in all. */
  function SecondTotal(firsts: seq<Json>, key: string, i: nat): nat
    requires i <= |firsts|
    decreases |firsts| - i
  {
    if i == |firsts| then 0 else |SecondsOf(firsts[i], key)| + SecondTotal(firsts, key, i + 1)
  }

  /** The rows of outer element `i` and those of the elements after it. */
  lemma OuterRowsSplit(submissionId: Json, outer: string, inner: string, questions: Dict<string, Question>,
                       firsts: seq<Json>, i: nat)
    requires i < |firsts|
    requires OuterRowsFrom(submissionId, outer, inner, questions, firsts, i).Ok?
    ensures firsts[i].JObj?
    ensures Iterate(GetList(firsts[i].fields, outer + "/" + inner)).Ok?
    ensures SecondsOf(firsts[i], outer + "/" + inner) == Iterate(GetList(firsts[i].fields, outer + "/" + inner)).value
    ensures var part := ItemRowsFrom(NestedHeader(submissionId, outer, i), questions, SecondsOf(firsts[i], outer + "/" + inner), 0);
      part.Ok? && OuterRowsFrom(submissionId, outer, inner, questions, firsts, i + 1).Ok? &&
      OuterRowsFrom(submissionId, outer, inner, questions, firsts, i).value ==
        part.value + OuterRowsFrom(submissionId, outer, inner, questions, firsts, i + 1).value
  {
    var part := ItemRowsFrom(NestedHeader(submissionId, outer, i), questions, SecondsOf(firsts[i], outer + "/" + inner), 0);
    OuterRowsStep(submissionId, outer, inner, questions, firsts, i, [], SecondsOf(firsts[i], outer + "/" + inner), part.value);
    ThenNil(OuterRowsFrom(submissionId, outer, inner, questions, firsts, i));
    ThenNil(OuterRowsFrom(submissionId, outer, inner, questions, firsts, i + 1));
    assert [] + part.value == part.value;
  }

  /** Every inner element gives one row, so the rows number the inner
      elements of all outer elements. */
  lemma {:induction false} OuterRowsCount(submissionId: Json, outer: string, inner: string, questions: Dict<string, Question>,
                                          firsts: seq<Json>, i: nat)
    requires i <= |firsts|
    requires OuterRowsFrom(submissionId, outer, inner, questions, firsts, i).Ok?
    ensures |OuterRowsFrom(submissionId, outer, inner, questions, firsts, i).value| == SecondTotal(firsts, outer + "/" + inner, i)
    decreases |firsts| - i
  {
    if i < |firsts| {
      var key := outer + "/" + inner;
      var seconds := SecondsOf(firsts[i], key);
      var part := ItemRowsFrom(NestedHeader(submissionId, outer, i), questions, seconds, 0);
      var rest := OuterRowsFrom(submissionId, outer, inner, questions, firsts, i + 1);
      assert part.Ok? && rest.Ok? && OuterRowsFrom(submissionId, outer, inner, questions, firsts, i).value == part.value + rest.value by {
        OuterRowsSplit(submissionId, outer, inner, questions, firsts, i);
      }
      assert |rest.value| == SecondTotal(firsts, key, i + 1) by {
        OuterRowsCount(submissionId, outer, inner, questions, firsts, i + 1);
      }
      assert |part.value| == |seconds| by {
        ItemRowsAll(NestedHeader(submissionId, outer, i), questions, seconds);
      }
    }
  }

  /** Every row made from the elements has the header's keys and the group's
      question columns, and no other. */
  lemma ItemRowsKeys(header: Row, questions: Dict<string, Question>, items: seq<Json>, r: Row, k: string)
    requires ItemRowsFrom(header, questions, items, 0).Ok?
    requires r in ItemRowsFrom(header, questions, items, 0).value
    ensures k in Keys(r) <==> (k in Keys(header) || exists e :: e in questions && e.1.OriginalName() == k)
  {
    var rows := ItemRowsFrom(header, questions, items, 0).value;
    var m :| 0 <= m < |rows| && rows[m] == r;
    assert items[m].JObj? && r == GroupRow(header, questions, items[m].fields) by {
      ItemRowsAll(header, questions, items);
    }
    GroupRowShape(header, questions, items[m].fields, k);
  }

  /** A nested header holds `_parent_id` and the outer group's id column. */
  lemma NestedHeaderKeys(submissionId: Json, outer: string, i: nat, k: string)
    ensures k in Keys(NestedHeader(submissionId, outer, i)) <==> (k == "_parent_id" || k == "_" + outer + "_id")
  {
    SetKeys([("_parent_id", submissionId)], "_" + outer + "_id", JStr(OuterId(submissionId, i)));
    assert Keys([("_parent_id", submissionId)]) == ["_parent_id"];
  }

  /** Each nested row has the two id columns and the group's question
      columns, and no other. */
  lemma {:induction false} OuterRowsKeys(submissionId: Json, outer: string, inner: string, questions: Dict<string, Question>,
                                         firsts: seq<Json>, i: nat, r: Row, k: string)
    requires i <= |firsts|
    requires OuterRowsFrom(submissionId, outer, inner, questions, firsts, i).Ok?
    requires r in OuterRowsFrom(submissionId, outer, inner, questions, firsts, i).value
    ensures k in Keys(r) <==> (k == "_parent_id" || k == "_" + outer + "_id" || exists e :: e in questions && e.1.OriginalName() == k)
    decreases |firsts| - i
  {
    if i < |firsts| {
      var seconds := SecondsOf(firsts[i], outer + "/" + inner);
      var header := NestedHeader(submissionId, outer, i);
      var part := ItemRowsFrom(header, questions, seconds, 0);
      var rest := OuterRowsFrom(submissionId, outer, inner, questions, firsts, i + 1);
      assert part.Ok? && rest.Ok? && OuterRowsFrom(submissionId, outer, inner, questions, firsts, i).value == part.value + rest.value by {
        OuterRowsSplit(submissionId, outer, inner, questions, firsts, i);
      }
      if r in part.value {
        ItemRowsKeys(header, questions, seconds, r, k);
        NestedHeaderKeys(submissionId, outer, i, k);
      } else {
        assert r in rest.value;
        OuterRowsKeys(submissionId, outer, inner, questions, firsts, i + 1, r, k);
      }
    }
  }

  /** The header of a nested row carries the outer element's synthetic id,
      `<submission id>_<position from 1>`, and the submission's id unless the
      outer group is named `parent`. */
  lemma NestedHeaderIds(submissionId: Json, outer: string, i: nat)
    ensures Get(NestedHeader(submissionId, outer, i), "_" + outer + "_id") == Some(JStr(Str(submissionId) + "_" + NatToString(i + 1)))
    ensures outer != "parent" ==> Get(NestedHeader(submissionId, outer, i), "_parent_id") == Some(submissionId)
    ensures Distinct(NestedHeader(submissionId, outer, i))
  {
    var h := [("_parent_id", submissionId)];
    SetGet(h, "_" + outer + "_id", JStr(OuterId(submissionId, i)));
    SetDistinct(h, "_" + outer + "_id", JStr(OuterId(submissionId, i)));
    if outer != "parent" {
      var key := "_" + outer + "_id";
      assert key[1..|outer| + 1] == outer;
      assert "_parent_id"[1..7] == "parent";
      assert key != "_parent_id";
      SetOther(h, "_" + outer + "_id", JStr(OuterId(submissionId, i)), "_parent_id");
    }
  }

  /** A group below a repeat group inside another (three or more name parts)
      gives no rows: only two levels are read. */
  lemma DeepGroupRows(submission: Obj, group: RepeatGroup, questions: Dict<string, Question>, submissionId: Json)
    requires group.level != 0 && Count(group.name, '/') >= 2
    ensures GroupRows(submission, group, questions, submissionId).Ok? ==> GroupRows(submission, group, questions, submissionId).value == []
  {
    SplitPieces(group.name, '/');
  }

  /** A group whose level is not 0 but whose name has a single part gives no rows. */
  lemma SinglePartRows(submission: Obj, group: RepeatGroup, questions: Dict<string, Question>, submissionId: Json)
    requires group.level != 0 && '/' !in group.name
    ensures GroupRows(submission, group, questions, submissionId) == Ok([])
  {
    SplitPieces(group.name, '/');
  }

  /** The table of a repeat group over `submissions[i..]`. */
  function RepeatTableFrom(structure: SurveyStructure, submissions: seq<Obj>, group: RepeatGroup, i: nat): Result<Table>
    requires i <= |submissions|
    decreases |submissions| - i
  {
    if i == |submissions| then Ok([])
    else
      var rows :- GroupRows(submissions[i], group, GroupQuestions(structure, group), SubmissionId(submissions[i]));
      Then(rows, RepeatTableFrom(structure, submissions, group, i + 1))
  }

  /** The non-empty tables of `groups[i..]`, in order. */
  function GroupTablesFrom(structure: SurveyStructure, submissions: seq<Obj>, groups: seq<(string, RepeatGroup)>, i: nat): Result<seq<Table>>
    requires i <= |groups|
    decreases |groups| - i
  {
    if i == |groups| then Ok([])
    else
      var t :- RepeatTableFrom(structure, submissions, groups[i].1, 0);
      Then(if |t| > 0 then [t] else [], GroupTablesFrom(structure, submissions, groups, i + 1))
  }

  lemma GroupTablesStep(structure: SurveyStructure, submissions: seq<Obj>, groups: seq<(string, RepeatGroup)>, i: nat)
    requires i < |groups|
    ensures var t := RepeatTableFrom(structure, submissions, groups[i].1, 0);
      GroupTablesFrom(structure, submissions, groups, i) ==
        if t.Err? then Err(t.error)
        else Then(if |t.value| > 0 then [t.value] else [], GroupTablesFrom(structure, submissions, groups, i + 1))
  {
  }

  /** Processing the group tables fails exactly when some group's table fails. */
  lemma {:induction false} GroupTablesFail(structure: SurveyStructure, submissions: seq<Obj>, groups: seq<(string, RepeatGroup)>, i: nat)
    requires i <= |groups|
    ensures GroupTablesFrom(structure, submissions, groups, i).Err? <==>
      exists j :: i <= j < |groups| && RepeatTableFrom(structure, submissions, groups[j].1, 0).Err?
    decreases |groups| - i
  {
    if i < |groups| {
      var t := RepeatTableFrom(structure, submissions, groups[i].1, 0);
      if t.Err? {
        assert GroupTablesFrom(structure, submissions, groups, i).Err? by {
          GroupTablesStep(structure, submissions, groups, i);
        }
      } else {
        assert GroupTablesFrom(structure, submissions, groups, i).Err? <==> GroupTablesFrom(structure, submissions, groups, i + 1).Err? by {
          GroupTablesStep(structure, submissions, groups, i);
        }
        GroupTablesFail(structure, submissions, groups, i + 1);
        if exists j :: i <= j < |groups| && RepeatTableFrom(structure, submissions, groups[j].1, 0).Err? {
          var j :| i <= j < |groups| && RepeatTableFrom(structure, submissions, groups[j].1, 0).Err?;
          assert j != i;
        }
      }
    }
  }

  /** The group tables are non-empty and at most one per group. */
  lemma {:induction false} GroupTablesShape(structure: SurveyStructure, submissions: seq<Obj>, groups: seq<(string, RepeatGroup)>, i: nat)
    requires i <= |groups|
    requires GroupTablesFrom(structure, submissions, groups, i).Ok?
    ensures |GroupTablesFrom(structure, submissions, groups, i).value| <= |groups| - i
    ensures forall t :: t in GroupTablesFrom(structure, submissions, groups, i).value ==> |t| > 0
    decreases |groups| - i
  {
    if i < |groups| {
      var t := RepeatTableFrom(structure, submissions, groups[i].1, 0);
      var rest := GroupTablesFrom(structure, submissions, groups, i + 1);
      var more: seq<Table> := if t.Ok? && |t.value| > 0 then [t.value] else [];
      assert t.Ok? && rest.Ok? && GroupTablesFrom(structure, submissions, groups, i).value == more + rest.value by {
        GroupTablesStep(structure, submissions, groups, i);
      }
      GroupTablesShape(structure, submissions, groups, i + 1);
      assert forall u :: u in more + rest.value ==> u in more || u in rest.value;
    }
  }

  /** The positions `j >= i` of `groups` whose table has rows, in order. */
  function TableIndices(structure: SurveyStructure, submissions: seq<Obj>, groups: seq<(string, RepeatGroup)>, i: nat): seq<nat>
    requires i <= |groups|
    decreases |groups| - i
  {
    if i == |groups| then []
    else
      var t := RepeatTableFrom(structure, submissions, groups[i].1, 0);
      (if t.Ok? && |t.value| > 0 then [i] else []) + TableIndices(structure, submissions, groups, i + 1)
  }

  /** The table of every group of `groups`, each on its own. */
  function GroupTableResults(structure: SurveyStructure, submissions: seq<Obj>, groups: seq<(string, RepeatGroup)>): seq<Result<Table>> {
    seq(|groups|, j requires 0 <= j < |groups| => RepeatTableFrom(structure, submissions, groups[j].1, 0))
  }

  /** `ts` are the tables among `results[i..]` picked at `idx`: the k-th is
      the table at `idx[k]`, the positions increase, and every table left out
      has no rows. */
  predicate Picks(ts: seq<Table>, idx: seq<nat>, results: seq<Result<Table>>, i: nat) {
    |idx| == |ts| &&
    (forall k :: 0 <= k < |idx| ==> i <= idx[k] < |results| && results[idx[k]] == Ok(ts[k])) &&
    (forall k, l :: 0 <= k < l < |idx| ==> idx[k] < idx[l]) &&
    (forall j :: i <= j < |results| && j !in idx ==> results[j] == Ok([]))
  }

  /** Picking the table at `i`, or leaving it out when it has no rows, in
      front of a picking from `i + 1` on. */
  lemma PicksCons(ts: seq<Table>, idx: seq<nat>, results: seq<Result<Table>>, i: nat, t: Table)
    requires Picks(ts, idx, results, i + 1) && i < |results| && results[i] == Ok(t)
    ensures var m: seq<nat> := if |t| > 0 then [i] else [];
      Picks((if |t| > 0 then [t] else []) + ts, m + idx, results, i)
  {
    var m: seq<nat> := if |t| > 0 then [i] else [];
    var ts', idx' := (if |t| > 0 then [t] else []) + ts, m + idx;
    forall k | 0 <= k < |idx'|
      ensures i <= idx'[k] < |results| && results[idx'[k]] == Ok(ts'[k])
    {
      if k >= |m| {
        assert idx'[k] == idx[k - |m|] && ts'[k] == ts[k - |m|];
      }
    }
    forall k, l | 0 <= k < l < |idx'|
      ensures idx'[k] < idx'[l]
    {
      assert idx'[l] == idx[l - |m|];
      if k >= |m| {
        assert idx'[k] == idx[k - |m|];
      }
    }
    forall j | i <= j < |results| && j !in idx'
      ensures results[j] == Ok([])
    {
      if j > i {
        assert j !in idx;
      }
    }
  }

  /** When the group tables succeed, they are exactly the tables of the groups
      with rows, in the groups' order: the k-th is the table of group
      `TableIndices(..)[k]`, and every group left out has no rows. */
  lemma {:induction false} GroupTablesPick(structure: SurveyStructure, submissions: seq<Obj>, groups: seq<(string, RepeatGroup)>, i: nat)
    requires i <= |groups|
    requires GroupTablesFrom(structure, submissions, groups, i).Ok?
    ensures Picks(GroupTablesFrom(structure, submissions, groups, i).value, TableIndices(structure, submissions, groups, i),
                  GroupTableResults(structure, submissions, groups), i)
    decreases |groups| - i
  {
    var results := GroupTableResults(structure, submissions, groups);
    if i < |groups| {
      var t := RepeatTableFrom(structure, submissions, groups[i].1, 0);
      var rest := GroupTablesFrom(structure, submissions, groups, i + 1);
      assert t.Ok? && rest.Ok? &&
        GroupTablesFrom(structure, submissions, groups, i).value == (if |t.value| > 0 then [t.value] else []) + rest.value by {
        GroupTablesStep(structure, submissions, groups, i);
      }
      GroupTablesPick(structure, submissions, groups, i + 1);
      assert results[i] == t;
      PicksCons(rest.value, TableIndices(structure, submissions, groups, i + 1), results, i, t.value);
    } else {
      assert Picks([], [], results, i);
    }
  }

  /** `process_submissions`: nothing for no submissions; otherwise the main
      table, then the table of every repeat group in level order, leaving out
      tables without rows. */
  function Process(structure: SurveyStructure, submissions: seq<Obj>): Result<seq<Table>> {
    if |submissions| == 0 then Ok([])
    else
      var main := MainTable(structure, submissions);
      Then(if |main| > 0 then [main] else [], GroupTablesFrom(structure, submissions, SortByLevel(structure.repeatGroups), 0))
  }

  /** No submissions give no tables.  Otherwise the main table comes first,
      with one row per submission, and the group tables follow, at most one
      per repeat group and none without rows; processing fails exactly when
      the table of some group fails. */
  lemma ProcessShape(structure: SurveyStructure, submissions: seq<Obj>)
    ensures |submissions| == 0 ==> Process(structure, submissions) == Ok([])
    ensures |submissions| > 0 && Process(structure, submissions).Ok? ==>
      var ts := Process(structure, submissions).value;
      |ts| >= 1 && ts[0] == MainTable(structure, submissions) && |ts[0]| == |submissions| &&
      |ts| <= 1 + |structure.repeatGroups| && forall t :: t in ts ==> |t| > 0
    ensures |submissions| > 0 ==> (Process(structure, submissions).Err? <==>
      exists g :: g in structure.repeatGroups && RepeatTableFrom(structure, submissions, g.1, 0).Err?)
  {
    if |submissions| > 0 {
      var groups := SortByLevel(structure.repeatGroups);
      SortByLevelPermutes(structure.repeatGroups);
      assert |groups| == |multiset(groups)| == |multiset(structure.repeatGroups)| == |structure.repeatGroups|;
      GroupTablesFail(structure, submissions, groups, 0);
      var main := MainTable(structure, submissions);
      var rest := GroupTablesFrom(structure, submissions, groups, 0);
      if rest.Ok? {
        GroupTablesShape(structure, submissions, groups, 0);
      }
      assert Process(structure, submissions) == Then([main], rest);
      if rest.Ok? {
        assert forall u :: u in [main] + rest.value ==> u == main || u in rest.value;
      }
      forall g | g in structure.repeatGroups
        ensures g in groups
      {
        assert g in multiset(structure.repeatGroups);
      }
      forall j | 0 <= j < |groups|
        ensures groups[j] in structure.repeatGroups
      {
        assert groups[j] in multiset(groups);
      }
    }
  }

  /** The tables after the main one belong to the repeat groups in level
      order: the k-th is the table of the group at position
      `TableIndices(..)[k]` of `SortByLevel`, and every group without a
      table there has no rows. */
  lemma ProcessTables(structure: SurveyStructure, submissions: seq<Obj>)
    requires |submissions| > 0 && Process(structure, submissions).Ok?
    ensures var ts := Process(structure, submissions).value;
      var groups := SortByLevel(structure.repeatGroups);
      |ts| >= 1 && ts[0] == MainTable(structure, submissions) &&
      Picks(ts[1..], TableIndices(structure, submissions, groups, 0), GroupTableResults(structure, submissions, groups), 0)
  {
    var groups := SortByLevel(structure.repeatGroups);
    var main := MainTable(structure, submissions);
    var rest := GroupTablesFrom(structure, submissions, groups, 0);
    assert Process(structure, submissions) == Then([main], rest);
    GroupTablesPick(structure, submissions, groups, 0);
    assert ([main] + rest.value)[1..] == rest.value;
  }

  // ---------------------------------------------------------------------
  // Ordering the repeat groups
  // ---------------------------------------------------------------------

  predicate SortedByLevel(gs: seq<(string, RepeatGroup)>) {
    forall i, j :: 0 <= i < j < |gs| ==> gs[i].1.level <= gs[j].1.level
  }

  /** The groups of one level, in order. */
  function AtLevel(gs: seq<(string, RepeatGroup)>, level: int): seq<(string, RepeatGroup)> {
    if |gs| == 0 then []
    else (if gs[0].1.level == level then [gs[0]] else []) + AtLevel(gs[1..], level)
  }

  /** `x` placed before the first group whose level is not below its own. */
  function InsertByLevel(x: (string, RepeatGroup), gs: seq<(string, RepeatGroup)>): seq<(string, RepeatGroup)> {
    if |gs| == 0 then [x]
    else if x.1.level <= gs[0].1.level then [x] + gs
    else [gs[0]] + InsertByLevel(x, gs[1..])
  }

  /** `sorted(groups.items(), key=level)`, a stable sort. */
  function SortByLevel(gs: seq<(string, RepeatGroup)>): seq<(string, RepeatGroup)> {
    if |gs| == 0 then [] else InsertByLevel(gs[0], SortByLevel(gs[1..]))
  }

  lemma {:induction false} InsertByLevelMembers(x: (string, RepeatGroup), gs: seq<(string, RepeatGroup)>)
    ensures multiset(InsertByLevel(x, gs)) == multiset(gs) + multiset{x}
    ensures forall y :: y in InsertByLevel(x, gs) <==> y == x || y in gs
  {
    if |gs| > 0 && x.1.level > gs[0].1.level {
      InsertByLevelMembers(x, gs[1..]);
      assert gs == [gs[0]] + gs[1..];
    }
  }

  /** A group no deeper than any of a sorted sequence can go in front of it. */
  lemma SortedCons(a: (string, RepeatGroup), rest: seq<(string, RepeatGroup)>)
    requires SortedByLevel(rest)
    requires forall y :: y in rest ==> a.1.level <= y.1.level
    ensures SortedByLevel([a] + rest)
  {
    var r := [a] + rest;
    forall i, j | 0 <= i < j < |r|
      ensures r[i].1.level <= r[j].1.level
    {
      assert r[j] == rest[j - 1];
      if i > 0 {
        assert r[i] == rest[i - 1];
      }
    }
  }

  lemma {:induction false} InsertByLevelSorted(x: (string, RepeatGroup), gs: seq<(string, RepeatGroup)>)
    requires SortedByLevel(gs)
    ensures SortedByLevel(InsertByLevel(x, gs))
  {
    if |gs| == 0 {
    } else if x.1.level <= gs[0].1.level {
      forall y | y in gs
        ensures x.1.level <= y.1.level
      {
        var j :| 0 <= j < |gs| && gs[j] == y;
        assert j == 0 || gs[0].1.level <= gs[j].1.level;
      }
      SortedCons(x, gs);
    } else {
      var rest := InsertByLevel(x, gs[1..]);
      InsertByLevelSorted(x, gs[1..]);
      InsertByLevelMembers(x, gs[1..]);
      forall y | y in rest
        ensures gs[0].1.level <= y.1.level
      {
        if y != x {
          var j :| 0 <= j < |gs[1..]| && gs[1..][j] == y;
          assert gs[j + 1] == y;
        }
      }
      SortedCons(gs[0], rest);
    }
  }

  lemma {:induction false} InsertByLevelAtLevel(x: (string, RepeatGroup), gs: seq<(string, RepeatGroup)>, level: int)
    ensures AtLevel(InsertByLevel(x, gs), level) == if x.1.level == level then [x] + AtLevel(gs, level) else AtLevel(gs, level)
  {
    if |gs| > 0 && x.1.level > gs[0].1.level {
      var rest := InsertByLevel(x, gs[1..]);
      InsertByLevelAtLevel(x, gs[1..], level);
      assert ([gs[0]] + rest)[1..] == rest;
    } else if |gs| > 0 {
      assert ([x] + gs)[1..] == gs;
    }
  }

  /** Sorting by level orders the groups by level. */
  lemma {:induction false} SortByLevelSorted(gs: seq<(string, RepeatGroup)>)
    ensures SortedByLevel(SortByLevel(gs))
  {
    if |gs| > 0 {
      SortByLevelSorted(gs[1..]);
      InsertByLevelSorted(gs[0], SortByLevel(gs[1..]));
    }
  }

  /** Sorting by level loses no group and adds none. */
  lemma {:induction false} SortByLevelPermutes(gs: seq<(string, RepeatGroup)>)
    ensures multiset(SortByLevel(gs)) == multiset(gs)
  {
    if |gs| > 0 {
      SortByLevelPermutes(gs[1..]);
      InsertByLevelMembers(gs[0], SortByLevel(gs[1..]));
      assert gs == [gs[0]] + gs[1..];
    }
  }

  /** Sorting by level is stable: the groups of one level keep their dict order. */
  lemma {:induction false} SortByLevelStable(gs: seq<(string, RepeatGroup)>, level: int)
    ensures AtLevel(SortByLevel(gs), level) == AtLevel(gs, level)
  {
    if |gs| > 0 {
      SortByLevelStable(gs[1..], level);
      InsertByLevelAtLevel(gs[0], SortByLevel(gs[1..]), level);
    }
  }

  // ---------------------------------------------------------------------
  // The processor
  // ---------------------------------------------------------------------

  class DataProcessor {
    const structure: SurveyStructure

    constructor(structure: SurveyStructure)
      ensures this.structure == structure
    {
      this.structure := structure;
    }

    /** `_get_sorted_repeat_groups`. */
    function SortedRepeatGroups(): seq<(string, RepeatGroup)> {
      SortByLevel(structure.repeatGroups)
    }

    /** The groups come ordered by level, and they are the schema's groups. */
    lemma SortedRepeatGroupsLaws()
      ensures SortedByLevel(SortedRepeatGroups())
      ensures multiset(SortedRepeatGroups()) == multiset(structure.repeatGroups)
    {
      SortByLevelSorted(structure.repeatGroups);
      SortByLevelPermutes(structure.repeatGroups);
    }

    method ProcessSubmissions(submissions: seq<Obj>) returns (r: Result<seq<Table>>)
      ensures r == Process(structure, submissions)
    {
      if |submissions| == 0 {
        return Ok([]);
      }
      var tables: seq<Table> := [];
      var main := CreateMainTable(submissions);
      if |main| > 0 {
        tables := tables + [main];
      }
      assert tables == if |main| > 0 then [main] else [];
      var groups := SortedRepeatGroups();
      ghost var whole := Process(structure, submissions);
      assert groups == SortByLevel(structure.repeatGroups);
      assert whole == Then(tables, GroupTablesFrom(structure, submissions, groups, 0));
      for i := 0 to |groups|
        invariant whole == Then(tables, GroupTablesFrom(structure, submissions, groups, i))
      {
        GroupTablesStep(structure, submissions, groups, i);
        var t := CreateRepeatTable(submissions, groups[i].1);
        if t.Err? {
          return Err(t.error);
        }
        var more: seq<Table> := if |t.value| > 0 then [t.value] else [];
        ThenAssoc(tables, more, GroupTablesFrom(structure, submissions, groups, i + 1));
        tables := tables + more;
      }
      ThenDone(tables);
      r := Ok(tables);
    }

    method CreateMainTable(submissions: seq<Obj>) returns (t: Table)
      ensures t == MainTable(structure, submissions)
    {
      var mainQuestions := structure.GetQuestionsByPath("");
      t := [];
      for i := 0 to |submissions|
        invariant t == MainTable(structure, submissions)[..i]
      {
        var row := InitializeRow(mainQuestions);
        row := FillRowData(row, submissions[i]);
        t := t + [row];
      }
    }

    method CreateRepeatTable(submissions: seq<Obj>, group: RepeatGroup) returns (r: Result<Table>)
      ensures r == RepeatTableFrom(structure, submissions, group, 0)
    {
      var groupQuestions := GroupQuestions(structure, group);
      var rows: Table := [];
      ThenNil(RepeatTableFrom(structure, submissions, group, 0));
      for i := 0 to |submissions|
        invariant RepeatTableFrom(structure, submissions, group, 0) == Then(rows, RepeatTableFrom(structure, submissions, group, i))
      {
        var submissionId := SubmissionId(submissions[i]);
        var groupRows := ExtractRepeatData(submissions[i], group, groupQuestions, submissionId);
        if groupRows.Err? {
          return Err(groupRows.error);
        }
        ThenAssoc(rows, groupRows.value, RepeatTableFrom(structure, submissions, group, i + 1));
        rows := rows + groupRows.value;
      }
      assert rows + [] == rows;
      r := Ok(rows);
    }

    method InitializeRow(questions: Dict<string, Question>) returns (row: Row)
      ensures row == BlankRow(questions)
    {
      row := [];
      for i := 0 to |MetadataColumns|
        invariant row == SetAll([], NullCells(MetadataColumns[..i]))
      {
        NullCellsStep([], MetadataColumns, i);
        row := Set(row, MetadataColumns[i], JNull);
      }
      assert MetadataColumns[..|MetadataColumns|] == MetadataColumns;
      ghost var metadataRow := row;
      ghost var names := ColumnNames(questions);
      for i := 0 to |questions|
        invariant row == SetAll(metadataRow, NullCells(names[..i]))
      {
        NullCellsStep(metadataRow, names, i);
        row := Set(row, questions[i].1.OriginalName(), JNull);
      }
      assert names[..|names|] == names;
      BlankRowParts(questions);
    }

    method FillRowData(row: Row, data: Obj) returns (filled: Row)
      ensures filled == Filled(row, data)
    {
      ghost var cols := Keys(row);
      filled := row;
      for i := 0 to |data|
        invariant filled == SetAll(row, Writes(cols, data[..i]))
        invariant Keys(filled) == cols
      {
        var key, value := data[i].0, data[i].1;
        ghost var ws := Writes(cols, data[..i]);
        WritesSnoc(cols, data, i);
        if !value.JList? {
          var originalKey := LastSegment(key);
          if originalKey in Keys(filled) {
            SetAllSnoc(row, ws, (originalKey, value));
            SetKeys(filled, originalKey, value);
            filled := Set(filled, originalKey, value);
          } else {
            assert ws + [] == ws;
          }
        } else {
          assert ws + [] == ws;
        }
      }
      assert data[..|data|] == data;
    }

    method ExtractRepeatData(submission: Obj, group: RepeatGroup, questions: Dict<string, Question>, submissionId: Json)
      returns (r: Result<Table>)
      ensures r == GroupRows(submission, group, questions, submissionId)
    {
      if group.level == 0 {
        var items := Iterate(GetList(submission, group.SimpleName()));
        if items.Err? {
          return Err(items.error);
        }
        ThenNil(ItemRowsFrom(LevelZeroHeader(submissionId), questions, items.value, 0));
        r := AppendItemRows([], LevelZeroHeader(submissionId), questions, items.value);
      } else {
        var pathParts := Split(group.name, '/');
        r := ExtractNestedRepeatData(submission, pathParts, questions, submissionId);
      }
    }

    /** The loop both kinds of repeat group run over the elements of a
        repeat list: a row per element, started from `header`, given the
        group's columns and filled from the element, appended to `rows`. */
    method AppendItemRows(rows: Table, header: Row, questions: Dict<string, Question>, items: seq<Json>)
      returns (r: Result<Table>)
      ensures r == Then(rows, ItemRowsFrom(header, questions, items, 0))
    {
      var acc := rows;
      for i := 0 to |items|
        invariant Then(rows, ItemRowsFrom(header, questions, items, 0)) == Then(acc, ItemRowsFrom(header, questions, items, i))
      {
        ItemRowsStep(header, questions, items, i, acc);
        var row := InitializeRowForGroup(header, questions);
        var item := items[i];
        if !item.JObj? {
          return Err(AttributeError);
        }
        row := FillRowData(row, item.fields);
        acc := acc + [row];
      }
      ThenDone(acc);
      r := Ok(acc);
    }

    method ExtractNestedRepeatData(submission: Obj, pathParts: seq<string>, questions: Dict<string, Question>, submissionId: Json)
      returns (r: Result<Table>)
      ensures r == NestedRows(submission, pathParts, questions, submissionId)
    {
      var rows: Table := [];
      if |pathParts| >= 2 {
        var firstLevel := Iterate(GetList(submission, pathParts[0]));
        if firstLevel.Err? {
          return Err(firstLevel.error);
        }
        var firsts := firstLevel.value;
        if |pathParts| != 2 {
          return Ok([]);
        }
        var outer, inner := pathParts[0], pathParts[1];
        ghost var whole := OuterRowsFrom(submissionId, outer, inner, questions, firsts, 0);
        ThenNil(whole);
        for i := 0 to |firsts|
          invariant whole == Then(rows, OuterRowsFrom(submissionId, outer, inner, questions, firsts, i))
        {
          var firstItem := firsts[i];
          if !firstItem.JObj? {
            return Err(AttributeError);
          }
          var secondItems := Iterate(GetList(firstItem.fields, outer + "/" + inner));
          if secondItems.Err? {
            return Err(secondItems.error);
          }
          var header := NestedHeader(submissionId, outer, i);
          var more := AppendItemRows(rows, header, questions, secondItems.value);
          if more.Err? {
            OuterRowsPartErr(submissionId, outer, inner, questions, firsts, i, rows, secondItems.value);
            return Err(more.error);
          }
          ghost var part := ItemRowsFrom(header, questions, secondItems.value, 0).value;
          OuterRowsStep(submissionId, outer, inner, questions, firsts, i, rows, secondItems.value, part);
          rows := more.value;
        }
        ThenDone(rows);
      }
      r := Ok(rows);
    }

    method InitializeRowForGroup(row: Row, questions: Dict<string, Question>) returns (initialized: Row)
      ensures initialized == SetAll(row, NullCells(ColumnNames(questions)))
    {
      var names := ColumnNames(questions);
      initialized := row;
      for i := 0 to |questions|
        invariant initialized == SetAll(row, NullCells(names[..i]))
      {
        NullCellsStep(row, names, i);
        initialized := Set(initialized, questions[i].1.OriginalName(), JNull);
      }
      assert names[..|names|] == names;
    }
  }
}
