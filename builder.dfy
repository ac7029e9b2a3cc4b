/**
 * The facade (koboapi/builder.py): parses the form description once and
 * shares the resulting schema between the processor and the exporter.
 */
module Building {
  import opened Results
  import opened Dicts
  import opened JsonValues
  import opened Models
  import opened Parsing
  import opened Processing
  import opened Exporting

  /** `get_structure_summary()`: the three entries of the returned dict. */
  datatype StructureSummary = StructureSummary(
    totalQuestions: nat,
    repeatGroups: seq<string>,
    questionTypes: seq<string>)

  /** No element occurs twice. */
  predicate NoDuplicates<T(==)>(xs: seq<T>) {
    forall i, j :: 0 <= i < j < |xs| ==> xs[i] != xs[j]
  }

  /** The question types of `qs`, each once, in order of first occurrence. */
  function DistinctTypes(qs: Dict<string, Question>): seq<string> {
    if |qs| == 0 then []
    else
      var rest := DistinctTypes(qs[..|qs| - 1]);
      var t := qs[|qs| - 1].1.qtype;
      if t in rest then rest else rest + [t]
  }

  /** The distinct types are exactly the types some question has, each once. */
  lemma {:induction false} DistinctTypesLaws(qs: Dict<string, Question>)
    ensures forall t :: t in DistinctTypes(qs) <==> exists e :: e in qs && e.1.qtype == t
    ensures NoDuplicates(DistinctTypes(qs))
  {
    if |qs| > 0 {
      var init, last := qs[..|qs| - 1], qs[|qs| - 1];
      DistinctTypesLaws(init);
      assert qs == init + [last];
      forall t | t in DistinctTypes(qs)
        ensures exists e :: e in qs && e.1.qtype == t
      {
        if t != last.1.qtype {
          var e :| e in init && e.1.qtype == t;
          assert e in qs;
        }
      }
      forall t | exists e :: e in qs && e.1.qtype == t
        ensures t in DistinctTypes(qs)
      {
        var e :| e in qs && e.1.qtype == t;
        if e != last {
          assert e in init;
        }
      }
    }
  }

  class XLSFormDataStructureBuilder {
    const parser: StructureParser
    const structure: SurveyStructure
    const processor: DataProcessor
    const exporter: DataExporter

    /** The processor and the exporter work on the schema the parser built. */
    predicate Valid() {
      processor.structure == structure && exporter.structure == Some(structure) && structure.Valid()
    }

    /** `__init__`: a fresh parser (counter at 0) parses the form once. */
    constructor(xlsform: GroupSpec)
      ensures Valid()
      ensures structure == Structure(xlsform, 0)
      ensures parser.xlsform == xlsform
    {
      var p := new StructureParser(xlsform);
      var s := p.Parse();
      parser := p;
      structure := s;
      processor := new DataProcessor(s);
      exporter := new DataExporter(Some(s));
    }

    /** `process_submissions`: the processor's tables for the parsed schema. */
    method ProcessSubmissions(submissions: seq<Obj>) returns (r: Result<seq<Table>>)
      requires Valid()
      ensures r == Process(structure, submissions)
    {
      r := processor.ProcessSubmissions(submissions);
    }

    /** `export_to_excel`: the sheets named from the parsed schema. */
    method ExportToExcel(tables: seq<Table>, surveyName: string) returns (r: Result<seq<(string, Table)>>)
      requires Valid()
      ensures r == Workbook(Some(structure), tables, surveyName)
    {
      r := exporter.ToExcel(tables, surveyName);
    }

    /** `get_structure_summary`: how many questions, the repeat groups' names
        in dict order, and every question type once. */
    function GetStructureSummary(): (r: StructureSummary)
      ensures r.totalQuestions == |structure.questions|
      ensures r.repeatGroups == Keys(structure.repeatGroups)
      ensures forall t :: t in r.questionTypes <==> exists e :: e in structure.questions && e.1.qtype == t
      ensures NoDuplicates(r.questionTypes)
    {
      DistinctTypesLaws(structure.questions);
      StructureSummary(|structure.questions|, Keys(structure.repeatGroups), DistinctTypes(structure.questions))
    }

    /** `get_questions_by_type`: the questions of type `t`, keys and order kept. */
    function GetQuestionsByType(t: string): (r: Dict<string, Question>)
      ensures forall e :: e in r <==> e in structure.questions && e.1.qtype == t
      ensures structure.Valid() ==> Distinct(r)
    {
      structure.GetQuestionsByType(t)
    }
  }
}
