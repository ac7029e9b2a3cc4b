/**
 * The parsed schema: questions and repeat groups keyed by their fully
 * qualified, `/`-joined names (koboapi/models.py).
 */
module Models {
  import opened Results
  import opened Dicts
  import opened JsonValues
  import opened Text

  /** A survey question.  `label`, `required` and `list_name` hold whatever
      value the form description gave (`JNull` standing for None). */
  datatype Question = Question(
    name: string,
    qtype: string,
    labelValue: Json,
    sequence: int,
    required: Json,
    listName: Json,
    path: string)
  {
    /** The question's own name: the text after the last `/` of `name`. */
    function OriginalName(): string {
      LastSegment(name)
    }
  }

  /** A repeat group; only groups flagged `repeat` are represented. */
  datatype RepeatGroup = RepeatGroup(
    name: string,
    labelValue: Json,
    sequence: int,
    path: string,
    level: int)
  {
    /** The group's own name: the text after the last `/` of `name`. */
    function SimpleName(): string {
      LastSegment(name)
    }

    /** Everything before the last `/`, or None for a name without `/`. */
    function ParentPath(): (r: Option<string>)
      ensures r.None? <==> '/' !in name
      ensures r.Some? ==> r.value + "/" + SimpleName() == name
    {
      if '/' in name then
        var parts := Split(name, '/');
        ParentAndLast(name, parts);
        Some(Join(parts[..|parts| - 1], '/'))
      else None
    }
  }

  /** A question's original name is the text after the last `/` of its full
      name, or all of it when there is none, and holds no `/`. */
  lemma OriginalNameLaws(q: Question)
    ensures '/' !in q.OriginalName()
    ensures |q.OriginalName()| <= |q.name| && q.name[|q.name| - |q.OriginalName()|..] == q.OriginalName()
    ensures |q.OriginalName()| < |q.name| ==> q.name[|q.name| - |q.OriginalName()| - 1] == '/'
    ensures '/' !in q.name ==> q.OriginalName() == q.name
  {
    LastSegmentLaws(q.name);
  }

  /** The same for a repeat group's simple name. */
  lemma SimpleNameLaws(g: RepeatGroup)
    ensures '/' !in g.SimpleName()
    ensures |g.SimpleName()| <= |g.name| && g.name[|g.name| - |g.SimpleName()|..] == g.SimpleName()
    ensures |g.SimpleName()| < |g.name| ==> g.name[|g.name| - |g.SimpleName()| - 1] == '/'
    ensures '/' !in g.name ==> g.SimpleName() == g.name
  {
    LastSegmentLaws(g.name);
  }

  /** Both dicts of the parsed schema. */
  datatype SurveyStructure = SurveyStructure(
    questions: Dict<string, Question>,
    repeatGroups: Dict<string, RepeatGroup>)
  {
    /** Both dicts have distinct keys, as Python dicts do. */
    predicate Valid() {
      Distinct(questions) && Distinct(repeatGroups)
    }

    /** The entries whose question has type `t`: same keys, same objects, same order. */
    function GetQuestionsByType(t: string): (r: Dict<string, Question>)
      ensures forall e :: e in r <==> e in questions && e.1.qtype == t
      ensures Valid() ==> Distinct(r)
      ensures Valid() ==> forall k :: Get(r, k) == (if Get(questions, k).Some? && Get(questions, k).value.qtype == t then Get(questions, k) else None)
    {
      Filter(questions, (q: Question) => q.qtype == t)
    }

    /** The entries whose question's enclosing path equals `p` exactly ("" for root questions). */
    function GetQuestionsByPath(p: string): (r: Dict<string, Question>)
      ensures forall e :: e in r <==> e in questions && e.1.path == p
      ensures Valid() ==> Distinct(r)
      ensures Valid() ==> forall k :: Get(r, k) == (if Get(questions, k).Some? && Get(questions, k).value.path == p then Get(questions, k) else None)
    {
      Filter(questions, (q: Question) => q.path == p)
    }
  }
}
