/**
 * The schema parser (koboapi/structure_parser.py): a pre-order walk of the
 * nested form description that registers every question and every repeat
 * group under its fully qualified, `/`-joined name.
 *
 * `Regs` below is the specification: the registrations the walk makes, in
 * order, each with the counter value current at that moment.  The parser
 * class is proved to assign exactly those registrations, one after another,
 * to its two dicts.
 */
module Parsing {
  import opened Results
  import opened Dicts
  import opened JsonValues
  import opened Text
  import opened Models

  /** A question node of the form description; every field may be absent. */
  datatype QuestionSpec = QuestionSpec(
    qtype: Option<string>,
    labelValue: Option<Json>,
    sequence: Option<int>,
    required: Option<Json>,
    listName: Option<Json>)

  /** The `groups` entry of a group node: absent, or a dict of named child
      groups.  (Its own type rather than an Option, so that a child group is
      structurally smaller than its parent.) */
  datatype Subgroups = NoGroupsKey | GroupsKey(entries: Dict<string, GroupSpec>)

  /** A group node; the form description itself is the root group node. */
  datatype GroupSpec = GroupSpec(
    labelValue: Option<Json>,
    sequence: Option<int>,
    repeat: Option<bool>,
    questions: Option<Dict<string, QuestionSpec>>,
    groups: Subgroups)

  /** `node.get('questions', {})` */
  function QuestionsOf(node: GroupSpec): Dict<string, QuestionSpec> {
    node.questions.GetOr([])
  }

  /** `node.get('groups', {})` */
  function GroupsOf(node: GroupSpec): Dict<string, GroupSpec> {
    if node.groups.GroupsKey? then node.groups.entries else []
  }

  /** `'questions' in node or 'groups' in node`: only then is the node descended into. */
  predicate HasContent(node: GroupSpec) {
    node.questions.Some? || node.groups.GroupsKey?
  }

  lemma ChildSmaller(parent: GroupSpec, i: nat)
    requires i < |GroupsOf(parent)|
    ensures GroupsOf(parent)[i].1 < parent
  {
    assert GroupsOf(parent)[i] in parent.groups.entries;
  }

  /** The prefix a node's children get: each enclosing group name followed by `/`. */
  function PrefixOf(enclosing: seq<string>): string {
    if |enclosing| == 0 then ""
    else PrefixOf(enclosing[..|enclosing| - 1]) + enclosing[|enclosing| - 1] + "/"
  }

  /** The question registered for `name` under `prefix` when the counter is `counter`. */
  function NewQuestion(name: string, spec: QuestionSpec, prefix: string, counter: int): Question {
    Question(
      prefix + name,
      spec.qtype.GetOr(""),
      spec.labelValue.GetOr(JStr(name)),
      spec.sequence.GetOr(counter),
      spec.required.GetOr(JBool(false)),
      spec.listName.GetOr(JNull),
      RStrip(prefix, '/'))
  }

  /** The repeat group registered for `name` under `prefix` when the counter is `counter`. */
  function NewRepeatGroup(name: string, spec: GroupSpec, prefix: string, counter: int): RepeatGroup {
    RepeatGroup(
      prefix + name,
      spec.labelValue.GetOr(JStr(name)),
      spec.sequence.GetOr(counter),
      RStrip(prefix, '/'),
      Count(prefix + name, '/'))
  }

  /** One registration: the entry made, the node's own name, the names of the
      groups enclosing it (repeat or not), and the counter value it saw. */
  datatype Reg =
    | QuestionReg(q: Question, local: string, enclosing: seq<string>, counter: int)
    | GroupReg(g: RepeatGroup, local: string, enclosing: seq<string>, counter: int)

  /** The registrations of the questions of one level, in order. */
  function QuestionRegs(qs: Dict<string, QuestionSpec>, enclosing: seq<string>, start: int): (regs: seq<Reg>)
    ensures |regs| == |qs|
  {
    if |qs| == 0 then []
    else
      var n := |qs| - 1;
      QuestionRegs(qs[..n], enclosing, start)
        + [QuestionReg(NewQuestion(qs[n].0, qs[n].1, PrefixOf(enclosing), start + n), qs[n].0, enclosing, start + n)]
  }

  lemma QuestionRegsStep(qs: Dict<string, QuestionSpec>, i: nat, enclosing: seq<string>, start: int)
    requires i < |qs|
    ensures QuestionRegs(qs[..i + 1], enclosing, start)
         == QuestionRegs(qs[..i], enclosing, start)
            + [QuestionReg(NewQuestion(qs[i].0, qs[i].1, PrefixOf(enclosing), start + i), qs[i].0, enclosing, start + i)]
  {
    assert qs[..i + 1][..i] == qs[..i];
  }

  /** The registrations of one level: its questions first, then its groups in order. */
  function LevelRegs(node: GroupSpec, enclosing: seq<string>, start: int): seq<Reg>
    decreases node, 1, |GroupsOf(node)| + 1
  {
    var qr := QuestionRegs(QuestionsOf(node), enclosing, start);
    qr + GroupsRegs(node, |GroupsOf(node)|, enclosing, start + |qr|)
  }

  /** The registrations of the first `i` groups of `node`. */
  function GroupsRegs(node: GroupSpec, i: nat, enclosing: seq<string>, start: int): seq<Reg>
    requires i <= |GroupsOf(node)|
    decreases node, 1, i
  {
    if i == 0 then []
    else
      var init := GroupsRegs(node, i - 1, enclosing, start);
      ChildSmaller(node, i - 1);
      init + GroupRegs(GroupsOf(node)[i - 1].0, GroupsOf(node)[i - 1].1, enclosing, start + |init|)
  }

  /** The registrations of one group: itself if it repeats, then its contents if it has any. */
  function GroupRegs(name: string, g: GroupSpec, enclosing: seq<string>, start: int): seq<Reg>
    decreases g, 2, 0
  {
    var own := if g.repeat.GetOr(false) then [GroupReg(NewRepeatGroup(name, g, PrefixOf(enclosing), start), name, enclosing, start)] else [];
    own + (if HasContent(g) then LevelRegs(g, enclosing + [name], start + |own|) else [])
  }

  /** A level registers its questions, then its groups. */
  lemma LevelRegsUnfold(node: GroupSpec, enclosing: seq<string>, start: int, mid: int)
    requires mid == start + |QuestionsOf(node)|
    ensures LevelRegs(node, enclosing, start)
         == QuestionRegs(QuestionsOf(node), enclosing, start) + GroupsRegs(node, |GroupsOf(node)|, enclosing, mid)
  {
  }

  /** The first `i + 1` groups register what the first `i` do, then the `i`-th group's. */
  lemma GroupsRegsStep(node: GroupSpec, i: nat, enclosing: seq<string>, start: int, name: string, g: GroupSpec, mid: int)
    requires i < |GroupsOf(node)| && GroupsOf(node)[i] == (name, g)
    requires mid == start + |GroupsRegs(node, i, enclosing, start)|
    ensures g < node
    ensures GroupsRegs(node, i + 1, enclosing, start) == GroupsRegs(node, i, enclosing, start) + GroupRegs(name, g, enclosing, mid)
  {
    ChildSmaller(node, i);
  }

  /** A group's registrations are its own (when it repeats) followed by its contents'. */
  lemma GroupRegsSplit(name: string, g: GroupSpec, enclosing: seq<string>, prefix: string, start: int, mid: int,
                       own: seq<Reg>, inner: seq<Reg>)
    requires prefix == PrefixOf(enclosing)
    requires g.repeat.GetOr(false) ==> own == [GroupReg(NewRepeatGroup(name, g, prefix, start), name, enclosing, start)]
    requires !g.repeat.GetOr(false) ==> own == []
    requires mid == start + |own|
    requires HasContent(g) ==> inner == LevelRegs(g, enclosing + [name], mid)
    requires !HasContent(g) ==> inner == []
    ensures GroupRegs(name, g, enclosing, start) == own + inner
  {
    if !g.repeat.GetOr(false) {
      assert own + inner == inner;
    }
  }

  /** The `(name, question)` assignments among `regs`, in order. */
  function QuestionEntries(regs: seq<Reg>): Dict<string, Question> {
    if |regs| == 0 then []
    else
      var last := regs[|regs| - 1];
      QuestionEntries(regs[..|regs| - 1]) + (if last.QuestionReg? then [(last.q.name, last.q)] else [])
  }

  /** The `(name, group)` assignments among `regs`, in order. */
  function GroupEntries(regs: seq<Reg>): Dict<string, RepeatGroup> {
    if |regs| == 0 then []
    else
      var last := regs[|regs| - 1];
      GroupEntries(regs[..|regs| - 1]) + (if last.GroupReg? then [(last.g.name, last.g)] else [])
  }

  lemma {:induction false} QuestionEntriesAppend(a: seq<Reg>, b: seq<Reg>)
    ensures QuestionEntries(a + b) == QuestionEntries(a) + QuestionEntries(b)
  {
    if |b| == 0 {
      assert a + b == a;
    } else {
      var init, last := b[..|b| - 1], b[|b| - 1];
      QuestionEntriesAppend(a, init);
      assert (a + b)[..|a + b| - 1] == a + init;
      assert (a + b)[|a + b| - 1] == last;
      var tail := if last.QuestionReg? then [(last.q.name, last.q)] else [];
      assert QuestionEntries(a + b) == QuestionEntries(a + init) + tail;
      assert QuestionEntries(b) == QuestionEntries(init) + tail;
    }
  }

  lemma {:induction false} GroupEntriesAppend(a: seq<Reg>, b: seq<Reg>)
    ensures GroupEntries(a + b) == GroupEntries(a) + GroupEntries(b)
  {
    if |b| == 0 {
      assert a + b == a;
    } else {
      var init, last := b[..|b| - 1], b[|b| - 1];
      GroupEntriesAppend(a, init);
      assert (a + b)[..|a + b| - 1] == a + init;
      assert (a + b)[|a + b| - 1] == last;
      var tail := if last.GroupReg? then [(last.g.name, last.g)] else [];
      assert GroupEntries(a + b) == GroupEntries(a + init) + tail;
      assert GroupEntries(b) == GroupEntries(init) + tail;
    }
  }

  /** Registering the `i`-th question of a level assigns it under its full name. */
  lemma QuestionStep(all: Dict<string, Question>, qs: Dict<string, QuestionSpec>, i: nat,
                     enclosing: seq<string>, start: int, fullName: string, q: Question)
    requires i < |qs|
    requires fullName == PrefixOf(enclosing) + qs[i].0
    requires q == NewQuestion(qs[i].0, qs[i].1, PrefixOf(enclosing), start + i)
    ensures SetAll(all, QuestionEntries(QuestionRegs(qs[..i + 1], enclosing, start)))
         == Set(SetAll(all, QuestionEntries(QuestionRegs(qs[..i], enclosing, start))), fullName, q)
  {
    var regs := QuestionRegs(qs[..i], enclosing, start);
    var all' := regs + [QuestionReg(q, qs[i].0, enclosing, start + i)];
    QuestionRegsStep(qs, i, enclosing, start);
    assert all'[..|all'| - 1] == regs;
    assert QuestionEntries(all') == QuestionEntries(regs) + [(q.name, q)];
    var es := QuestionEntries(regs) + [(q.name, q)];
    assert es[..|es| - 1] == QuestionEntries(regs);
  }

  /** Registering `more` after `before` is assigning their entries in turn. */
  lemma PushRegs(d: Dict<string, Question>, e: Dict<string, RepeatGroup>, before: seq<Reg>, more: seq<Reg>)
    ensures SetAll(d, QuestionEntries(before + more)) == SetAll(SetAll(d, QuestionEntries(before)), QuestionEntries(more))
    ensures SetAll(e, GroupEntries(before + more)) == SetAll(SetAll(e, GroupEntries(before)), GroupEntries(more))
  {
    QuestionEntriesAppend(before, more);
    GroupEntriesAppend(before, more);
    SetAllAppend(d, QuestionEntries(before), QuestionEntries(more));
    SetAllAppend(e, GroupEntries(before), GroupEntries(more));
  }

  /** Registering questions assigns no group. */
  lemma {:induction false} NoGroupEntries(qs: Dict<string, QuestionSpec>, enclosing: seq<string>, start: int)
    ensures GroupEntries(QuestionRegs(qs, enclosing, start)) == []
  {
    if |qs| > 0 {
      var regs := QuestionRegs(qs, enclosing, start);
      NoGroupEntries(qs[..|qs| - 1], enclosing, start);
      assert regs[..|regs| - 1] == QuestionRegs(qs[..|qs| - 1], enclosing, start);
    }
  }

  /** What a repeat group's own registration assigns: the group, and no question. */
  lemma OwnEntries(d: Dict<string, Question>, e: Dict<string, RepeatGroup>, own: seq<Reg>)
    requires |own| <= 1 && (|own| == 1 ==> own[0].GroupReg?)
    ensures SetAll(d, QuestionEntries(own)) == d
    ensures |own| == 0 ==> SetAll(e, GroupEntries(own)) == e
    ensures |own| == 1 ==> SetAll(e, GroupEntries(own)) == Set(e, own[0].g.name, own[0].g)
  {
    if |own| == 1 {
      assert own[..0] == [];
      assert GroupEntries(own) == [(own[0].g.name, own[0].g)];
      assert GroupEntries(own)[..0] == [];
    }
  }

  /** The structure `parse()` returns when the counter starts at `start`. */
  function Structure(form: GroupSpec, start: int): SurveyStructure {
    var regs := LevelRegs(form, [], start);
    SurveyStructure(SetAll([], QuestionEntries(regs)), SetAll([], GroupEntries(regs)))
  }

  /** The prefix below one more group ends with that group's name and a `/`. */
  lemma PrefixSnoc(enclosing: seq<string>, name: string)
    ensures PrefixOf(enclosing + [name]) == PrefixOf(enclosing) + name + "/"
  {
    assert (enclosing + [name])[..|enclosing|] == enclosing;
  }

  /** A registration's entry is named and placed after the groups enclosing
      it: its name is their prefix plus its own name, its path is that prefix
      without the trailing `/`, and a repeat group's level counts the `/`s of
      its name. */
  predicate Placed(r: Reg) {
    var prefix := PrefixOf(r.enclosing);
    match r
    case QuestionReg(q, local, _, _) => q.name == prefix + local && q.path == RStrip(prefix, '/')
    case GroupReg(g, local, _, _) =>
      g.name == prefix + local && g.path == RStrip(prefix, '/') && g.level == Count(g.name, '/')
  }

  /** Registrations made from counter value `start` below the groups `enclosing`:
      the counter advances by one per registration, each is placed, and each
      sits inside `enclosing`. */
  predicate Sound(regs: seq<Reg>, enclosing: seq<string>, start: int) {
    forall j :: 0 <= j < |regs| ==>
      regs[j].counter == start + j && Placed(regs[j]) && enclosing <= regs[j].enclosing
  }

  lemma SoundAppend(a: seq<Reg>, b: seq<Reg>, enclosing: seq<string>, start: int)
    requires Sound(a, enclosing, start) && Sound(b, enclosing, start + |a|)
    ensures Sound(a + b, enclosing, start)
  {
    forall j | 0 <= j < |a + b|
      ensures (a + b)[j].counter == start + j && Placed((a + b)[j]) && enclosing <= (a + b)[j].enclosing
    {
      if j >= |a| {
        assert (a + b)[j] == b[j - |a|];
      }
    }
  }

  lemma SoundInside(regs: seq<Reg>, enclosing: seq<string>, start: int, r: Reg)
    requires Sound(regs, enclosing, start) && r in regs
    ensures enclosing <= r.enclosing
  {
    var j :| 0 <= j < |regs| && regs[j] == r;
  }

  lemma SoundWiden(regs: seq<Reg>, inner: seq<string>, enclosing: seq<string>, start: int)
    requires Sound(regs, inner, start) && enclosing <= inner
    ensures Sound(regs, enclosing, start)
  {
  }

  lemma {:induction false} QuestionRegsSound(qs: Dict<string, QuestionSpec>, enclosing: seq<string>, start: int)
    ensures Sound(QuestionRegs(qs, enclosing, start), enclosing, start)
  {
    if |qs| > 0 {
      var n := |qs| - 1;
      QuestionRegsSound(qs[..n], enclosing, start);
      var last := [QuestionReg(NewQuestion(qs[n].0, qs[n].1, PrefixOf(enclosing), start + n), qs[n].0, enclosing, start + n)];
      assert Sound(last, enclosing, start + n);
      SoundAppend(QuestionRegs(qs[..n], enclosing, start), last, enclosing, start);
    }
  }

  /** Every registration of a level is sound: consecutive counters, names and
      paths built from the enclosing groups, levels counting their `/`s. */
  lemma {:induction false} LevelSound(node: GroupSpec, enclosing: seq<string>, start: int)
    ensures Sound(LevelRegs(node, enclosing, start), enclosing, start)
    decreases node, 1, |GroupsOf(node)| + 1
  {
    var qr := QuestionRegs(QuestionsOf(node), enclosing, start);
    QuestionRegsSound(QuestionsOf(node), enclosing, start);
    GroupsSound(node, |GroupsOf(node)|, enclosing, start + |qr|);
    SoundAppend(qr, GroupsRegs(node, |GroupsOf(node)|, enclosing, start + |qr|), enclosing, start);
  }

  lemma {:induction false} GroupsSound(node: GroupSpec, i: nat, enclosing: seq<string>, start: int)
    requires i <= |GroupsOf(node)|
    ensures Sound(GroupsRegs(node, i, enclosing, start), enclosing, start)
    decreases node, 1, i
  {
    if i > 0 {
      var init := GroupsRegs(node, i - 1, enclosing, start);
      var name, g := GroupsOf(node)[i - 1].0, GroupsOf(node)[i - 1].1;
      var mid := start + |init|;
      GroupsSound(node, i - 1, enclosing, start);
      GroupsRegsStep(node, i - 1, enclosing, start, name, g, mid);
      GroupSound(name, g, enclosing, mid);
      SoundAppend(init, GroupRegs(name, g, enclosing, mid), enclosing, start);
    }
  }

  lemma {:induction false} GroupSound(name: string, g: GroupSpec, enclosing: seq<string>, start: int)
    ensures Sound(GroupRegs(name, g, enclosing, start), enclosing, start)
    decreases g, 2, 0
  {
    var own := if g.repeat.GetOr(false) then [GroupReg(NewRepeatGroup(name, g, PrefixOf(enclosing), start), name, enclosing, start)] else [];
    assert Sound(own, enclosing, start);
    if HasContent(g) {
      LevelSound(g, enclosing + [name], start + |own|);
      SoundWiden(LevelRegs(g, enclosing + [name], start + |own|), enclosing + [name], enclosing, start + |own|);
      SoundAppend(own, LevelRegs(g, enclosing + [name], start + |own|), enclosing, start);
    } else {
      assert own + [] == own;
    }
  }

  // ---------------------------------------------------------------------
  // What gets registered
  // ---------------------------------------------------------------------

  /** The questions of a form description that the walk reaches: a node's
      own, and those below each child group that has a `questions` or
      `groups` entry. */
  function NumQuestions(node: GroupSpec): nat
    decreases node, 1
  {
    |QuestionsOf(node)| + NumQuestionsBelow(node, |GroupsOf(node)|)
  }

  function NumQuestionsBelow(node: GroupSpec, i: nat): nat
    requires i <= |GroupsOf(node)|
    decreases node, 0, i
  {
    if i == 0 then 0
    else
      var g := GroupsOf(node)[i - 1].1;
      ChildSmaller(node, i - 1);
      NumQuestionsBelow(node, i - 1) + (if HasContent(g) then NumQuestions(g) else 0)
  }

  /** The groups with `repeat` set that the walk reaches. */
  function NumRepeatGroups(node: GroupSpec): nat
    decreases node, 1
  {
    NumRepeatGroupsBelow(node, |GroupsOf(node)|)
  }

  function NumRepeatGroupsBelow(node: GroupSpec, i: nat): nat
    requires i <= |GroupsOf(node)|
    decreases node, 0, i
  {
    if i == 0 then 0
    else
      var g := GroupsOf(node)[i - 1].1;
      ChildSmaller(node, i - 1);
      NumRepeatGroupsBelow(node, i - 1) + (if g.repeat.GetOr(false) then 1 else 0)
        + (if HasContent(g) then NumRepeatGroups(g) else 0)
  }

  /** Every registration is a question's or a group's. */
  lemma {:induction false} EntriesCount(regs: seq<Reg>)
    ensures |QuestionEntries(regs)| + |GroupEntries(regs)| == |regs|
  {
    if |regs| > 0 {
      EntriesCount(regs[..|regs| - 1]);
    }
  }

  lemma {:induction false} QuestionRegsCount(qs: Dict<string, QuestionSpec>, enclosing: seq<string>, start: int)
    ensures |QuestionEntries(QuestionRegs(qs, enclosing, start))| == |qs|
  {
    NoGroupEntries(qs, enclosing, start);
    EntriesCount(QuestionRegs(qs, enclosing, start));
  }

  /** The walk registers each question it reaches once and each repeat group
      it reaches once, and nothing else: a plain group takes no counter value,
      so the counter advances by exactly the questions plus the repeat groups. */
  lemma {:induction false} LevelCounts(node: GroupSpec, enclosing: seq<string>, start: int)
    ensures |QuestionEntries(LevelRegs(node, enclosing, start))| == NumQuestions(node)
    ensures |GroupEntries(LevelRegs(node, enclosing, start))| == NumRepeatGroups(node)
    ensures |LevelRegs(node, enclosing, start)| == NumQuestions(node) + NumRepeatGroups(node)
    decreases node, 1, |GroupsOf(node)| + 1
  {
    var qr := QuestionRegs(QuestionsOf(node), enclosing, start);
    var gr := GroupsRegs(node, |GroupsOf(node)|, enclosing, start + |qr|);
    QuestionRegsCount(QuestionsOf(node), enclosing, start);
    NoGroupEntries(QuestionsOf(node), enclosing, start);
    GroupsCounts(node, |GroupsOf(node)|, enclosing, start + |qr|);
    QuestionEntriesAppend(qr, gr);
    GroupEntriesAppend(qr, gr);
    EntriesCount(qr + gr);
  }

  lemma {:induction false} GroupsCounts(node: GroupSpec, i: nat, enclosing: seq<string>, start: int)
    requires i <= |GroupsOf(node)|
    ensures |QuestionEntries(GroupsRegs(node, i, enclosing, start))| == NumQuestionsBelow(node, i)
    ensures |GroupEntries(GroupsRegs(node, i, enclosing, start))| == NumRepeatGroupsBelow(node, i)
    decreases node, 1, i
  {
    if i > 0 {
      var init := GroupsRegs(node, i - 1, enclosing, start);
      var name, g := GroupsOf(node)[i - 1].0, GroupsOf(node)[i - 1].1;
      var mid := start + |init|;
      GroupsCounts(node, i - 1, enclosing, start);
      GroupsRegsStep(node, i - 1, enclosing, start, name, g, mid);
      GroupCounts(name, g, enclosing, mid);
      QuestionEntriesAppend(init, GroupRegs(name, g, enclosing, mid));
      GroupEntriesAppend(init, GroupRegs(name, g, enclosing, mid));
    }
  }

  lemma {:induction false} GroupCounts(name: string, g: GroupSpec, enclosing: seq<string>, start: int)
    ensures |QuestionEntries(GroupRegs(name, g, enclosing, start))| == (if HasContent(g) then NumQuestions(g) else 0)
    ensures |GroupEntries(GroupRegs(name, g, enclosing, start))|
         == (if g.repeat.GetOr(false) then 1 else 0) + (if HasContent(g) then NumRepeatGroups(g) else 0)
    decreases g, 2, 0
  {
    var own: seq<Reg> := if g.repeat.GetOr(false) then [GroupReg(NewRepeatGroup(name, g, PrefixOf(enclosing), start), name, enclosing, start)] else [];
    var inner := if HasContent(g) then LevelRegs(g, enclosing + [name], start + |own|) else [];
    assert GroupRegs(name, g, enclosing, start) == own + inner;
    if HasContent(g) {
      LevelCounts(g, enclosing + [name], start + |own|);
    }
    QuestionEntriesAppend(own, inner);
    GroupEntriesAppend(own, inner);
    OwnEntries([], [], own);
    if |own| == 1 {
      assert own[..0] == [];
    }
  }

  /** `g` is the group reached from `node` by following the group names of
      `path`, descending only into groups that have content, as the walk does. */
  ghost predicate GroupAt(node: GroupSpec, path: seq<string>, g: GroupSpec)
    decreases |path|
  {
    |path| > 0 &&
    exists i :: 0 <= i < |GroupsOf(node)| && GroupsOf(node)[i].0 == path[0] &&
      if |path| == 1 then GroupsOf(node)[i].1 == g
      else HasContent(GroupsOf(node)[i].1) && GroupAt(GroupsOf(node)[i].1, path[1..], g)
  }

  /** A repeat-group registration made in `node` below `enclosing` is the
      entry of a group of the form that has `repeat` set, found by following
      the names from `enclosing` down to the registration's own name. */
  ghost predicate FromRepeatGroup(node: GroupSpec, enclosing: seq<string>, r: Reg)
    requires r.GroupReg?
  {
    enclosing <= r.enclosing &&
    exists g :: GroupAt(node, r.enclosing[|enclosing|..] + [r.local], g) && g.repeat == Some(true) &&
      r.g == NewRepeatGroup(r.local, g, PrefixOf(r.enclosing), r.counter)
  }

  /** Only groups with `repeat` set are registered as repeat groups. */
  lemma {:induction false} LevelOrigins(node: GroupSpec, enclosing: seq<string>, start: int)
    ensures forall r :: r in LevelRegs(node, enclosing, start) && r.GroupReg? ==> FromRepeatGroup(node, enclosing, r)
    decreases node, 1, |GroupsOf(node)| + 1
  {
    var qs := QuestionsOf(node);
    var qr := QuestionRegs(qs, enclosing, start);
    var gr := GroupsRegs(node, |GroupsOf(node)|, enclosing, start + |qr|);
    QuestionRegsAt(qs, enclosing, start);
    GroupsOrigins(node, |GroupsOf(node)|, enclosing, start + |qr|);
    assert forall r :: r in qr ==> r.QuestionReg?;
  }

  lemma {:induction false} GroupsOrigins(node: GroupSpec, i: nat, enclosing: seq<string>, start: int)
    requires i <= |GroupsOf(node)|
    ensures forall r :: r in GroupsRegs(node, i, enclosing, start) && r.GroupReg? ==> FromRepeatGroup(node, enclosing, r)
    decreases node, 1, i
  {
    if i > 0 {
      var init := GroupsRegs(node, i - 1, enclosing, start);
      var name, g := GroupsOf(node)[i - 1].0, GroupsOf(node)[i - 1].1;
      var mid := start + |init|;
      GroupsOrigins(node, i - 1, enclosing, start);
      GroupsRegsStep(node, i - 1, enclosing, start, name, g, mid);
      GroupOrigins(name, g, enclosing, mid);
      forall r: Reg | r in GroupRegs(name, g, enclosing, mid) && r.GroupReg?
        ensures FromRepeatGroup(node, enclosing, r)
      {
        OriginLift(node, i - 1, name, g, enclosing, r);
      }
      assert forall r :: r in GroupsRegs(node, i, enclosing, start) ==> r in init || r in GroupRegs(name, g, enclosing, mid);
    }
  }

  /** A registration of the `i`-th child group of `node` comes from `node`. */
  lemma OriginLift(node: GroupSpec, i: nat, name: string, g: GroupSpec, enclosing: seq<string>, r: Reg)
    requires i < |GroupsOf(node)| && GroupsOf(node)[i] == (name, g)
    requires r.GroupReg?
    requires (r.enclosing == enclosing && r.local == name && g.repeat == Some(true) &&
              r.g == NewRepeatGroup(name, g, PrefixOf(enclosing), r.counter)) ||
             (HasContent(g) && FromRepeatGroup(g, enclosing + [name], r))
    ensures FromRepeatGroup(node, enclosing, r)
  {
    var path := r.enclosing[|enclosing|..] + [r.local];
    if r.enclosing == enclosing && r.local == name && g.repeat == Some(true) &&
       r.g == NewRepeatGroup(name, g, PrefixOf(enclosing), r.counter) {
      assert path == [name];
      assert GroupAt(node, path, g);
    } else {
      var below := enclosing + [name];
      var g' :| GroupAt(g, r.enclosing[|below|..] + [r.local], g') && g'.repeat == Some(true) &&
        r.g == NewRepeatGroup(r.local, g', PrefixOf(r.enclosing), r.counter);
      assert r.enclosing[|enclosing|] == below[|enclosing|] == name;
      assert path[0] == name && path[1..] == r.enclosing[|below|..] + [r.local];
      assert GroupAt(node, path, g');
    }
  }

  /** A group's registrations: the group itself, when it repeats, and then
      registrations of its contents. */
  lemma GroupOrigins(name: string, g: GroupSpec, enclosing: seq<string>, start: int)
    ensures forall r :: r in GroupRegs(name, g, enclosing, start) && r.GroupReg? ==>
      (r.enclosing == enclosing && r.local == name && g.repeat == Some(true) &&
       r.g == NewRepeatGroup(name, g, PrefixOf(enclosing), r.counter)) ||
      (HasContent(g) && FromRepeatGroup(g, enclosing + [name], r))
    decreases g, 2, 0
  {
    var own: seq<Reg> := if g.repeat.GetOr(false) then [GroupReg(NewRepeatGroup(name, g, PrefixOf(enclosing), start), name, enclosing, start)] else [];
    if HasContent(g) {
      LevelOrigins(g, enclosing + [name], start + |own|);
    }
  }

  /** A group or question name as a form normally has it: non-empty, without `/`. */
  predicate PlainName(s: string) {
    |s| > 0 && '/' !in s
  }

  lemma {:induction false} PrefixJoin(enclosing: seq<string>)
    requires |enclosing| > 0
    ensures PrefixOf(enclosing) == Join(enclosing, '/') + "/"
  {
    var n := |enclosing| - 1;
    if n > 0 {
      PrefixJoin(enclosing[..n]);
      JoinLast(enclosing, '/');
    }
  }

  lemma {:induction false} CountPrefix(enclosing: seq<string>)
    requires forall e :: e in enclosing ==> '/' !in e
    ensures Count(PrefixOf(enclosing), '/') == |enclosing|
  {
    var n := |enclosing| - 1;
    if n >= 0 {
      var init := enclosing[..n];
      assert forall e :: e in init ==> e in enclosing;
      CountPrefix(init);
      CountAppend(PrefixOf(init), enclosing[n], '/');
      CountAppend(PrefixOf(init) + enclosing[n], "/", '/');
    }
  }

  /** The path of an entry below plain-named groups is their names joined by `/`. */
  lemma PathOfPrefix(enclosing: seq<string>)
    requires forall e :: e in enclosing ==> PlainName(e)
    ensures RStrip(PrefixOf(enclosing), '/') == Join(enclosing, '/')
  {
    if |enclosing| > 0 {
      var last := enclosing[|enclosing| - 1];
      assert PlainName(last);
      assert last[|last| - 1] in last;
      PrefixJoin(enclosing);
      JoinEnd(enclosing, '/');
      RStripSeparator(Join(enclosing, '/'), '/');
    }
  }

  /** A placed question below plain-named groups, with a plain name of its
      own: its original name is that name and its path is the enclosing
      names joined by `/`. */
  lemma QuestionNameLaws(r: Reg)
    requires r.QuestionReg? && Placed(r) && PlainName(r.local)
    requires forall e :: e in r.enclosing ==> PlainName(e)
    ensures r.q.OriginalName() == r.local
    ensures r.q.path == Join(r.enclosing, '/')
  {
    var prefix := PrefixOf(r.enclosing);
    if |r.enclosing| > 0 {
      PrefixJoin(r.enclosing);
    }
    LastSegmentAfter(prefix, r.local);
    PathOfPrefix(r.enclosing);
  }

  /** The same for a placed repeat group, whose level is moreover the number
      of groups enclosing it, repeat or not. */
  lemma GroupNameLaws(r: Reg)
    requires r.GroupReg? && Placed(r) && PlainName(r.local)
    requires forall e :: e in r.enclosing ==> PlainName(e)
    ensures r.g.SimpleName() == r.local
    ensures r.g.path == Join(r.enclosing, '/')
    ensures r.g.level == |r.enclosing|
  {
    var prefix := PrefixOf(r.enclosing);
    if |r.enclosing| > 0 {
      PrefixJoin(r.enclosing);
    }
    LastSegmentAfter(prefix, r.local);
    PathOfPrefix(r.enclosing);
    CountPrefix(r.enclosing);
    CountAppend(prefix, r.local, '/');
  }

  /** A placed repeat group below plain-named groups has a parent path exactly
      when some group encloses it, and it is their names joined by `/`. */
  lemma GroupParentLaws(r: Reg)
    requires r.GroupReg? && Placed(r) && PlainName(r.local)
    requires forall e :: e in r.enclosing ==> PlainName(e)
    ensures r.g.ParentPath() == if |r.enclosing| == 0 then None else Some(Join(r.enclosing, '/'))
  {
    var prefix := PrefixOf(r.enclosing);
    var g := r.g;
    LastSegmentAfter(prefix, r.local);
    if |r.enclosing| > 0 {
      PrefixJoin(r.enclosing);
      assert g.name[|prefix| - 1] == '/';
      var pp := g.ParentPath().value;
      assert g.SimpleName() == r.local;
      assert pp + "/" + r.local == g.name == prefix + r.local;
      assert pp + "/" + r.local == Join(r.enclosing, '/') + "/" + r.local;
      assert |pp| == |Join(r.enclosing, '/')|;
      var joined := Join(r.enclosing, '/');
      assert pp == (pp + "/" + r.local)[..|pp|];
      assert joined == (joined + "/" + r.local)[..|joined|];
      assert g.ParentPath() == Some(joined);
    } else {
      assert g.name == r.local;
    }
  }

  /** Within one level every question is registered before any group is
      descended into: the first registrations are exactly the level's own
      questions, and no later one is a question at this level. */
  lemma QuestionsFirst(node: GroupSpec, enclosing: seq<string>, start: int)
    ensures var regs := LevelRegs(node, enclosing, start);
      forall j :: 0 <= j < |regs| ==>
        (j < |QuestionsOf(node)| <==> regs[j].QuestionReg? && regs[j].enclosing == enclosing)
  {
    var qs := QuestionsOf(node);
    var qr := QuestionRegs(qs, enclosing, start);
    var gr := GroupsRegs(node, |GroupsOf(node)|, enclosing, start + |qr|);
    QuestionRegsAt(qs, enclosing, start);
    GroupsRegsDeeper(node, |GroupsOf(node)|, enclosing, start + |qr|);
    var regs: seq<Reg> := qr + gr;
    assert LevelRegs(node, enclosing, start) == regs;
    forall j | 0 <= j < |regs|
      ensures j < |qs| <==> regs[j].QuestionReg? && regs[j].enclosing == enclosing
    {
      if j >= |qr| {
        assert regs[j] == gr[j - |qr|];
        assert regs[j] in gr;
      }
    }
  }

  lemma {:induction false} QuestionRegsAt(qs: Dict<string, QuestionSpec>, enclosing: seq<string>, start: int)
    ensures forall j :: 0 <= j < |qs| ==>
      QuestionRegs(qs, enclosing, start)[j].QuestionReg? && QuestionRegs(qs, enclosing, start)[j].enclosing == enclosing
  {
    if |qs| > 0 {
      QuestionRegsAt(qs[..|qs| - 1], enclosing, start);
    }
  }

  /** Past a level's questions, every registration is a repeat group of the
      level or lies inside one of its groups. */
  lemma {:induction false} GroupsRegsDeeper(node: GroupSpec, i: nat, enclosing: seq<string>, start: int)
    requires i <= |GroupsOf(node)|
    ensures forall r :: r in GroupsRegs(node, i, enclosing, start) ==> r.GroupReg? || |r.enclosing| > |enclosing|
  {
    if i > 0 {
      var init := GroupsRegs(node, i - 1, enclosing, start);
      var name, g := GroupsOf(node)[i - 1].0, GroupsOf(node)[i - 1].1;
      var mid := start + |init|;
      GroupsRegsDeeper(node, i - 1, enclosing, start);
      GroupsRegsStep(node, i - 1, enclosing, start, name, g, mid);
      GroupRegsDeeper(name, g, enclosing, mid);
      var mine := GroupRegs(name, g, enclosing, mid);
      forall r: Reg | r in init + mine
        ensures r.GroupReg? || |r.enclosing| > |enclosing|
      {
        if r !in init {
          assert r in mine;
        }
      }
    }
  }

  /** The registrations of one group are the group itself or lie inside it. */
  lemma GroupRegsDeeper(name: string, g: GroupSpec, enclosing: seq<string>, start: int)
    ensures forall r :: r in GroupRegs(name, g, enclosing, start) ==> r.GroupReg? || |r.enclosing| > |enclosing|
  {
    var own: seq<Reg> := if g.repeat.GetOr(false) then [GroupReg(NewRepeatGroup(name, g, PrefixOf(enclosing), start), name, enclosing, start)] else [];
    if HasContent(g) {
      var below, mid := enclosing + [name], start + |own|;
      var inner := LevelRegs(g, below, mid);
      LevelSound(g, below, mid);
      forall r: Reg | r in own + inner
        ensures r.GroupReg? || |r.enclosing| > |enclosing|
      {
        if r !in own {
          SoundInside(inner, below, mid, r);
        }
      }
    }
  }

  /** `Structure` holds only registered entries, each under its own name. */
  lemma StructureEntries(form: GroupSpec, start: int)
    ensures forall e :: e in Structure(form, start).questions ==>
      e.0 == e.1.name && exists r :: r in LevelRegs(form, [], start) && r.QuestionReg? && r.q == e.1
    ensures forall e :: e in Structure(form, start).repeatGroups ==>
      e.0 == e.1.name && exists r :: r in LevelRegs(form, [], start) && r.GroupReg? && r.g == e.1
  {
    var regs := LevelRegs(form, [], start);
    forall e | e in Structure(form, start).questions
      ensures e.0 == e.1.name && exists r :: r in regs && r.QuestionReg? && r.q == e.1
    {
      SetAllMembers([], QuestionEntries(regs), e);
      QuestionEntriesFrom(regs, e);
    }
    forall e | e in Structure(form, start).repeatGroups
      ensures e.0 == e.1.name && exists r :: r in regs && r.GroupReg? && r.g == e.1
    {
      SetAllMembers([], GroupEntries(regs), e);
      GroupEntriesFrom(regs, e);
    }
  }

  lemma {:induction false} QuestionEntriesFrom(regs: seq<Reg>, e: (string, Question))
    requires e in QuestionEntries(regs)
    ensures e.0 == e.1.name && exists r :: r in regs && r.QuestionReg? && r.q == e.1
  {
    var init := regs[..|regs| - 1];
    if e in QuestionEntries(init) {
      QuestionEntriesFrom(init, e);
      var r :| r in init && r.QuestionReg? && r.q == e.1;
      assert r in regs;
    } else {
      assert regs[|regs| - 1] in regs;
    }
  }

  lemma {:induction false} GroupEntriesFrom(regs: seq<Reg>, e: (string, RepeatGroup))
    requires e in GroupEntries(regs)
    ensures e.0 == e.1.name && exists r :: r in regs && r.GroupReg? && r.g == e.1
  {
    var init := regs[..|regs| - 1];
    if e in GroupEntries(init) {
      GroupEntriesFrom(init, e);
      var r :| r in init && r.GroupReg? && r.g == e.1;
      assert r in regs;
    } else {
      assert regs[|regs| - 1] in regs;
    }
  }

  /** A full name registered twice keeps the later entry, silently. */
  lemma StructureLastWins(form: GroupSpec, start: int, name: string)
    ensures Get(Structure(form, start).questions, name) == LastFor(QuestionEntries(LevelRegs(form, [], start)), name)
    ensures Get(Structure(form, start).repeatGroups, name) == LastFor(GroupEntries(LevelRegs(form, [], start)), name)
  {
    SetAllLastWins([], QuestionEntries(LevelRegs(form, [], start)), name);
    SetAllLastWins([], GroupEntries(LevelRegs(form, [], start)), name);
  }

  class StructureParser {
    const xlsform: GroupSpec
    /** The running counter; it is never reset, not even by a second `Parse`. */
    var sequence: int

    constructor (xlsform: GroupSpec)
      ensures this.xlsform == xlsform && sequence == 0
    {
      this.xlsform := xlsform;
      sequence := 0;
    }

    method Parse() returns (structure: SurveyStructure)
      modifies this
      ensures structure == Structure(xlsform, old(sequence))
      ensures structure.Valid()
      ensures sequence == old(sequence) + |LevelRegs(xlsform, [], old(sequence))|
    {
      var questions, groups := ParseLevel(QuestionsOf(xlsform), GroupsOf(xlsform), [], [], "", xlsform, []);
      structure := SurveyStructure(questions, groups);
      SetAllDistinct([], QuestionEntries(LevelRegs(xlsform, [], old(sequence))));
      SetAllDistinct([], GroupEntries(LevelRegs(xlsform, [], old(sequence))));
    }

    /** Registers the questions, then the groups, of one level. */
    method ParseLevel(questions: Dict<string, QuestionSpec>, groups: Dict<string, GroupSpec>,
                      allQuestions: Dict<string, Question>, allGroups: Dict<string, RepeatGroup>,
                      prefix: string, ghost node: GroupSpec, ghost enclosing: seq<string>)
      returns (questionsOut: Dict<string, Question>, groupsOut: Dict<string, RepeatGroup>)
      requires questions == QuestionsOf(node) && groups == GroupsOf(node)
      requires prefix == PrefixOf(enclosing)
      modifies this
      decreases node, 1
      ensures questionsOut == SetAll(allQuestions, QuestionEntries(LevelRegs(node, enclosing, old(sequence))))
      ensures groupsOut == SetAll(allGroups, GroupEntries(LevelRegs(node, enclosing, old(sequence))))
      ensures sequence == old(sequence) + |LevelRegs(node, enclosing, old(sequence))|
    {
      var start := sequence;
      questionsOut := ParseQuestions(questions, allQuestions, prefix, enclosing);
      groupsOut := allGroups;
      ghost var qr := QuestionRegs(questions, enclosing, start);
      NoGroupEntries(questions, enclosing, start);
      ghost var base, q0 := sequence, questionsOut;
      for i := 0 to |groups|
        invariant questionsOut == SetAll(q0, QuestionEntries(GroupsRegs(node, i, enclosing, base)))
        invariant groupsOut == SetAll(allGroups, GroupEntries(GroupsRegs(node, i, enclosing, base)))
        invariant sequence == base + |GroupsRegs(node, i, enclosing, base)|
      {
        var (gName, gData) := groups[i];
        ghost var done := GroupsRegs(node, i, enclosing, base);
        GroupsRegsStep(node, i, enclosing, base, gName, gData, sequence);
        ghost var gr := GroupRegs(gName, gData, enclosing, sequence);
        questionsOut, groupsOut := ParseGroup(gName, gData, questionsOut, groupsOut, prefix, enclosing);
        PushRegs(q0, allGroups, done, gr);
      }
      PushRegs(allQuestions, allGroups, qr, GroupsRegs(node, |groups|, enclosing, base));
      LevelRegsUnfold(node, enclosing, start, base);
    }

    /** The question loop of one level: each question is assigned under its
        full name and takes the next counter value. */
    method ParseQuestions(questions: Dict<string, QuestionSpec>, allQuestions: Dict<string, Question>,
                          prefix: string, ghost enclosing: seq<string>)
      returns (questionsOut: Dict<string, Question>)
      requires prefix == PrefixOf(enclosing)
      modifies this
      ensures questionsOut == SetAll(allQuestions, QuestionEntries(QuestionRegs(questions, enclosing, old(sequence))))
      ensures sequence == old(sequence) + |questions|
    {
      var start := sequence;
      questionsOut := allQuestions;
      for i := 0 to |questions|
        invariant questionsOut == SetAll(allQuestions, QuestionEntries(QuestionRegs(questions[..i], enclosing, start)))
        invariant sequence == start + i
      {
        var (qName, qData) := questions[i];
        var fullName := if prefix != "" then prefix + qName else qName;
        assert fullName == prefix + qName;
        var question := Question(fullName, qData.qtype.GetOr(""), qData.labelValue.GetOr(JStr(qName)),
                                 qData.sequence.GetOr(sequence), qData.required.GetOr(JBool(false)),
                                 qData.listName.GetOr(JNull), RStrip(prefix, '/'));
        QuestionStep(allQuestions, questions, i, enclosing, start, fullName, question);
        questionsOut := Set(questionsOut, fullName, question);
        sequence := sequence + 1;
      }
      assert questions[..|questions|] == questions;
    }

    /** The body of the group loop for one group: a repeat group is assigned
        and takes the next counter value; a group with a `questions` or
        `groups` entry is descended into with its full name as prefix. */
    method ParseGroup(gName: string, gData: GroupSpec,
                      allQuestions: Dict<string, Question>, allGroups: Dict<string, RepeatGroup>,
                      prefix: string, ghost enclosing: seq<string>)
      returns (questionsOut: Dict<string, Question>, groupsOut: Dict<string, RepeatGroup>)
      requires prefix == PrefixOf(enclosing)
      modifies this
      decreases gData, 2
      ensures questionsOut == SetAll(allQuestions, QuestionEntries(GroupRegs(gName, gData, enclosing, old(sequence))))
      ensures groupsOut == SetAll(allGroups, GroupEntries(GroupRegs(gName, gData, enclosing, old(sequence))))
      ensures sequence == old(sequence) + |GroupRegs(gName, gData, enclosing, old(sequence))|
    {
      questionsOut, groupsOut := allQuestions, allGroups;
      var fullName := if prefix != "" then prefix + gName else gName;
      var newPrefix := fullName + "/";
      assert fullName == prefix + gName;
      ghost var s0 := sequence;
      ghost var own: seq<Reg> := [];
      if gData.repeat.GetOr(false) {
        var group := RepeatGroup(fullName, gData.labelValue.GetOr(JStr(gName)), gData.sequence.GetOr(sequence),
                                 RStrip(prefix, '/'), Count(fullName, '/'));
        assert group == NewRepeatGroup(gName, gData, prefix, sequence);
        own := [GroupReg(group, gName, enclosing, sequence)];
        groupsOut := Set(groupsOut, fullName, group);
        sequence := sequence + 1;
      }
      OwnEntries(allQuestions, allGroups, own);
      assert sequence == s0 + |own|;
      ghost var s1, q1, g1 := sequence, questionsOut, groupsOut;
      ghost var inner: seq<Reg> := [];
      if HasContent(gData) {
        ghost var below := enclosing + [gName];
        inner := LevelRegs(gData, below, s1);
        PrefixSnoc(enclosing, gName);
        questionsOut, groupsOut := ParseLevel(QuestionsOf(gData), GroupsOf(gData), questionsOut, groupsOut,
                                              newPrefix, gData, below);
      }
      assert sequence == s1 + |inner|;
      GroupRegsSplit(gName, gData, enclosing, prefix, s0, s1, own, inner);
      PushRegs(allQuestions, allGroups, own, inner);
      ghost var regs := own + inner;
      assert questionsOut == SetAll(allQuestions, QuestionEntries(regs));
      assert groupsOut == SetAll(allGroups, GroupEntries(regs));
      assert sequence == s0 + |regs|;
      assert regs == GroupRegs(gName, gData, enclosing, s0);
    }
  }
}
