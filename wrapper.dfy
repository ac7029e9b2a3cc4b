/**
 * The computational parts of the API wrapper (koboapi/wrapper.py): the
 * endpoint aliases, the rewriting of the data query, the asset name/uid
 * table, the download-URL lookup, label extraction, and the two parsers
 * that turn an asset's `content` (a flat `survey` list and a `choices`
 * list) into the nested form description and the choice lists.
 *
 * The HTTP client is not modelled: operations that call it take the
 * decoded response as a parameter, or return the request they would make.
 */
module KoboWrapper {
  import opened Results
  import opened Dicts
  import opened JsonValues
  import opened Parsing

  // ---------------------------------------------------------------------
  // Endpoint aliases
  // ---------------------------------------------------------------------

  const DefaultUrl := "https://kf.kobotoolbox.org/"
  const HumanitarianUrl := "https://kc.humanitarianresponse.info/"

  /** `Kobo.ENDPOINTS`. */
  const Endpoints: Dict<string, string> := [("default", DefaultUrl), ("humanitarian", HumanitarianUrl)]

  /** `ENDPOINTS.get(endpoint, endpoint)`: an alias gives its URL, anything
      else is taken as the URL itself. */
  function ResolveEndpoint(endpoint: string): (url: string)
    ensures endpoint == "default" ==> url == DefaultUrl
    ensures endpoint == "humanitarian" ==> url == HumanitarianUrl
    ensures endpoint != "default" && endpoint != "humanitarian" ==> url == endpoint
  {
    var aliases := Endpoints[1..];
    assert Get(aliases[1..], endpoint) == None;
    assert Get(aliases, endpoint) == if endpoint == "humanitarian" then Some(HumanitarianUrl) else None;
    assert Get(Endpoints, endpoint) == if endpoint == "default" then Some(DefaultUrl) else Get(aliases, endpoint);
    Get(Endpoints, endpoint).GetOr(endpoint)
  }

  /** A resolved URL is not itself an alias, so resolving again changes nothing. */
  lemma ResolveEndpointIdempotent(endpoint: string)
    ensures ResolveEndpoint(ResolveEndpoint(endpoint)) == ResolveEndpoint(endpoint)
  {
    assert |DefaultUrl| == 27 && |HumanitarianUrl| == 37;
    assert |"default"| == 7 && |"humanitarian"| == 12;
  }

  // ---------------------------------------------------------------------
  // Labels, names and keys
  // ---------------------------------------------------------------------

  /** `_extract_label(item)`: the first element of a non-empty list label,
      otherwise `str(label)` for a truthy label and `''` for a falsy or
      missing one. */
  function ExtractLabel(item: Obj): (r: Json) {
    var lbl := Get(item, "label").GetOr(JStr(""));
    if lbl.JList? && |lbl.items| > 0 then lbl.items[0]
    else if Truthy(lbl) then JStr(Str(lbl))
    else JStr("")
  }

  /** What the callers of `_extract_label` test: the label is falsy, so that
      they fall back to the item's name, exactly when the item has no label,
      a falsy one, or a list label whose first element is falsy.  A string
      label comes back as it is, and a list label never comes back whole. */
  lemma {:induction false} ExtractLabelFalsy(item: Obj)
    ensures !Truthy(ExtractLabel(item)) <==>
      var lbl := Get(item, "label");
      lbl.None? || !Truthy(lbl.value) || (lbl.value.JList? && |lbl.value.items| > 0 && !Truthy(lbl.value.items[0]))
    ensures Get(item, "label").Some? && Get(item, "label").value.JStr? ==> ExtractLabel(item) == Get(item, "label").value
    ensures ExtractLabel(item).JList? ==> Get(item, "label").Some? && Get(item, "label").value.JList?
  {
    var lbl := Get(item, "label").GetOr(JStr(""));
    if !lbl.JList? && !lbl.JStr? && Truthy(lbl) {
      ReprNonEmpty(lbl);
    }
  }

  /** A value usable as a dict key: lists and dicts are not hashable. */
  predicate Hashable(j: Json) {
    !j.JList? && !j.JObj?
  }

  /** `item.get('name') or item.get('$autoname')`. */
  function NameOf(item: Obj): Json {
    var name := Get(item, "name").GetOr(JNull);
    if Truthy(name) then name else Get(item, "$autoname").GetOr(JNull)
  }

  // ---------------------------------------------------------------------
  // list_uid
  // ---------------------------------------------------------------------

  /** One entry of the `list_uid` comprehension: `asset.get('name', '')` and
      `asset.get('uid', '')`; `.get` on a non-dict raises AttributeError, an
      unhashable name TypeError. */
  function AssetEntry(asset: Json): Result<(Json, Json)> {
    if !asset.JObj? then Err(AttributeError)
    else
      var name := Get(asset.fields, "name").GetOr(JStr(""));
      var uid := Get(asset.fields, "uid").GetOr(JStr(""));
      if !Hashable(name) then Err(TypeError) else Ok((name, uid))
  }

  /** The entries of the first `n` assets, or the first error. */
  function AssetEntries(assets: seq<Json>, n: nat): (r: Result<seq<(Json, Json)>>)
    requires n <= |assets|
    ensures r.Ok? ==> |r.value| == n
  {
    if n == 0 then Ok([])
    else
      var es :- AssetEntries(assets, n - 1);
      var e :- AssetEntry(assets[n - 1]);
      Ok(es + [e])
  }

  /** `list_uid()` over the assets `list_assets()` returned. */
  function ListUid(assets: seq<Json>): Result<Dict<Json, Json>> {
    var es :- AssetEntries(assets, |assets|);
    Ok(SetAll([], es))
  }

  lemma {:induction false} AssetEntriesAt(assets: seq<Json>, n: nat, i: nat)
    requires i < n <= |assets| && AssetEntries(assets, n).Ok?
    ensures AssetEntry(assets[i]) == Ok(AssetEntries(assets, n).value[i])
  {
    if i < n - 1 {
      AssetEntriesAt(assets, n - 1, i);
    }
  }

  lemma {:induction false} AssetEntriesErr(assets: seq<Json>, n: nat, i: nat)
    requires i < n <= |assets| && AssetEntry(assets[i]).Err?
    ensures AssetEntries(assets, n).Err?
  {
    if i < n - 1 {
      AssetEntriesErr(assets, n - 1, i);
    }
  }

  /** `list_uid` fails exactly when some asset is not a dict or has an
      unhashable name; otherwise it maps every asset's name, each once, to
      the uid of the last asset with that name. */
  lemma ListUidLaws(assets: seq<Json>)
    ensures ListUid(assets).Err? <==> exists i :: 0 <= i < |assets| && AssetEntry(assets[i]).Err?
    ensures ListUid(assets).Ok? ==>
      var d := ListUid(assets).value;
      var es := AssetEntries(assets, |assets|).value;
      Distinct(d) &&
      (forall i :: 0 <= i < |assets| ==> AssetEntry(assets[i]) == Ok(es[i])) &&
      (forall k :: k in Keys(d) <==> k in Keys(es)) &&
      (forall k :: Get(d, k) == LastFor(es, k))
  {
    if ListUid(assets).Ok? {
      var es := AssetEntries(assets, |assets|).value;
      SetAllDistinct([], es);
      SetAllKeysIn([], es);
      forall i | 0 <= i < |assets|
        ensures AssetEntry(assets[i]) == Ok(es[i])
      {
        AssetEntriesAt(assets, |assets|, i);
      }
      forall k
        ensures Get(SetAll([], es), k) == LastFor(es, k)
      {
        SetAllLastWins([], es, k);
      }
    } else {
      assert AssetEntries(assets, |assets|).Err?;
      var i := FirstAssetErr(assets, |assets|);
    }
    if exists i :: 0 <= i < |assets| && AssetEntry(assets[i]).Err? {
      var i :| 0 <= i < |assets| && AssetEntry(assets[i]).Err?;
      AssetEntriesErr(assets, |assets|, i);
    }
  }

  lemma {:induction false} FirstAssetErr(assets: seq<Json>, n: nat) returns (i: nat)
    requires n <= |assets| && AssetEntries(assets, n).Err?
    ensures i < n && AssetEntry(assets[i]).Err?
  {
    if AssetEntries(assets, n - 1).Err? {
      i := FirstAssetErr(assets, n - 1);
    } else {
      i := n - 1;
    }
  }

  // ---------------------------------------------------------------------
  // _find_download_url
  // ---------------------------------------------------------------------

  /** `download.get('format') == format_type` for a dict. */
  predicate FormatMatches(download: Obj, formatType: string) {
    Get(download, "format") == Some(JStr(formatType))
  }

  /** The result of the loop from the `i`-th download on: the url of the
      first dict whose format matches, None when there is none, and
      AttributeError at the first element that is not a dict. */
  function FirstUrlFrom(downloads: seq<Json>, formatType: string, i: nat): Result<Json>
    decreases |downloads| - i
  {
    if i >= |downloads| then Ok(JNull)
    else if !downloads[i].JObj? then Err(AttributeError)
    else if FormatMatches(downloads[i].fields, formatType) then Ok(Get(downloads[i].fields, "url").GetOr(JNull))
    else FirstUrlFrom(downloads, formatType, i + 1)
  }

  /** `_find_download_url(asset, format_type)`; None is `JNull`. */
  function DownloadUrl(asset: Obj, formatType: string): Result<Json> {
    var downloads :- Iterate(Get(asset, "downloads").GetOr(JList([])));
    FirstUrlFrom(downloads, formatType, 0)
  }

  /** When the downloads before `j` are dicts of other formats and the
      `j`-th matches, its url is the answer. */
  lemma {:induction false} FirstUrlAt(downloads: seq<Json>, formatType: string, i: nat, j: nat)
    requires i <= j < |downloads|
    requires forall k :: i <= k < j ==> downloads[k].JObj? && !FormatMatches(downloads[k].fields, formatType)
    requires downloads[j].JObj? && FormatMatches(downloads[j].fields, formatType)
    ensures FirstUrlFrom(downloads, formatType, i) == Ok(Get(downloads[j].fields, "url").GetOr(JNull))
    decreases j - i
  {
    if i < j {
      FirstUrlAt(downloads, formatType, i + 1, j);
    }
  }

  /** When every download is a dict of another format, the answer is None. */
  lemma {:induction false} FirstUrlNone(downloads: seq<Json>, formatType: string, i: nat)
    requires forall k :: i <= k < |downloads| ==> downloads[k].JObj? && !FormatMatches(downloads[k].fields, formatType)
    ensures FirstUrlFrom(downloads, formatType, i) == Ok(JNull)
    decreases |downloads| - i
  {
    if i < |downloads| {
      FirstUrlNone(downloads, formatType, i + 1);
    }
  }

  /** A url that is found belongs to the first download with that format. */
  lemma {:induction false} FirstUrlFound(downloads: seq<Json>, formatType: string, i: nat) returns (j: nat)
    requires FirstUrlFrom(downloads, formatType, i).Ok? && FirstUrlFrom(downloads, formatType, i).value != JNull
    ensures i <= j < |downloads| && downloads[j].JObj? && FormatMatches(downloads[j].fields, formatType)
    ensures forall k :: i <= k < j ==> downloads[k].JObj? && !FormatMatches(downloads[k].fields, formatType)
    ensures FirstUrlFrom(downloads, formatType, i).value == Get(downloads[j].fields, "url").GetOr(JNull)
    decreases |downloads| - i
  {
    if FormatMatches(downloads[i].fields, formatType) {
      j := i;
    } else {
      j := FirstUrlFound(downloads, formatType, i + 1);
    }
  }

  // ---------------------------------------------------------------------
  // get_data
  // ---------------------------------------------------------------------

  /** `f'{{"_submission_time": {{"$gt": "{submitted_after}"}}}}'`. */
  function SubmittedAfterQuery(submittedAfter: Json): string {
    "{\"_submission_time\": {\"$gt\": \"" + Str(submittedAfter) + "\"}}"
  }

  // ---------------------------------------------------------------------
  // _parse_survey_content
  // ---------------------------------------------------------------------

  /** An open group: the key it is filed under in its parent, and its node. */
  datatype Frame = Frame(key: string, node: GroupSpec)

  /** The parser's state: `open` is the root followed by the groups opened
      and not yet closed, the last one being `current_group`; `rootEntry`
      tells whether `group_stack` still holds the root entry it starts
      with, so that `group_stack` is that entry (if any) followed by all of
      `open` but its last frame. */
  datatype SurveyState = SurveyState(open: OpenFrames, rootEntry: bool, sequence: int)

  /** The root is never closed, so at least one frame is open. */
  type OpenFrames = open: seq<Frame> | |open| >= 1 witness [Frame("", EmptyRoot)]

  /** `{'questions': {}, 'groups': {}}`. */
  const EmptyRoot := GroupSpec(None, None, None, Some([]), GroupsKey([]))

  function InitialState(): SurveyState {
    SurveyState([Frame("", EmptyRoot)], true, 0)
  }

  /** `item.get('type', '')`. */
  function ItemType(item: Obj): Json {
    Get(item, "type").GetOr(JStr(""))
  }

  predicate IsBegin(t: Json) {
    t == JStr("begin_group") || t == JStr("begin_repeat")
  }

  predicate IsEnd(t: Json) {
    t == JStr("end_group") || t == JStr("end_repeat")
  }

  /** The `new_group` dict of a `begin_*` item. */
  function NewGroupNode(item: Obj, sequence: int): GroupSpec {
    GroupSpec(Some(ExtractLabel(item)), Some(sequence), Some(ItemType(item) == JStr("begin_repeat")), Some([]), GroupsKey([]))
  }

  /** The `question` dict of a named item. */
  function NewQuestionSpec(item: Obj, name: Json, sequence: int): QuestionSpec {
    var lbl := ExtractLabel(item);
    QuestionSpec(
      Some(Str(ItemType(item))),
      Some(if Truthy(lbl) then lbl else name),
      Some(sequence),
      Some(Get(item, "required").GetOr(JBool(false))),
      Get(item, "select_from_list_name"))
  }

  /** `current_group['questions'][key] = q`. */
  function AddQuestion(open: seq<Frame>, key: string, q: QuestionSpec): (r: seq<Frame>)
    requires |open| >= 1
    ensures |r| == |open|
  {
    var current := open[|open| - 1];
    open[..|open| - 1] + [Frame(current.key, current.node.(questions := Some(Set(QuestionsOf(current.node), key, q))))]
  }

  /** Closing the current group: it is filed under its key in the enclosing
      group, which becomes current. */
  function CloseGroup(open: seq<Frame>): (r: seq<Frame>)
    requires |open| >= 2
    ensures |r| == |open| - 1
  {
    var child, parent := open[|open| - 1], open[|open| - 2];
    open[..|open| - 2] + [Frame(parent.key, parent.node.(groups := GroupsKey(Set(GroupsOf(parent.node), child.key, child.node))))]
  }

  /** The root with every group still open filed into its parent. */
  function Finish(open: seq<Frame>): GroupSpec
    requires |open| >= 1
    decreases |open|
  {
    if |open| == 1 then open[0].node else Finish(CloseGroup(open))
  }

  /** One item of the survey list. */
  function Step(s: SurveyState, item: Json): Result<SurveyState> {
    if !item.JObj? then Err(AttributeError)
    else
      var t := ItemType(item.fields);
      var name := NameOf(item.fields);
      if IsBegin(t) then
        if !Hashable(name) then Err(TypeError)
        else Ok(SurveyState(s.open + [Frame(Str(name), NewGroupNode(item.fields, s.sequence))], s.rootEntry, s.sequence + 1))
      else if IsEnd(t) then
        if |s.open| > 1 then Ok(s.(open := CloseGroup(s.open)))
        else if s.rootEntry then Ok(s.(rootEntry := false))
        else Err(IndexError)
      else if !Truthy(name) then Ok(s)
      else if !Hashable(name) then Err(TypeError)
      else Ok(SurveyState(AddQuestion(s.open, Str(name), NewQuestionSpec(item.fields, name, s.sequence)), s.rootEntry, s.sequence + 1))
  }

  /** `Step` as the body of a loop that also knows the item's position. */
  function StepAt(s: SurveyState, item: Json, i: nat): Result<SurveyState> {
    Step(s, item)
  }

  /** The state after the first `n` items, or the first error. */
  function RunUpTo(items: seq<Json>, n: nat): Result<SurveyState>
    requires n <= |items|
  {
    FoldUpTo(StepAt, InitialState(), items, n)
  }

  /** `_parse_survey_content(content)`. */
  function SurveyTree(content: Obj): Result<GroupSpec> {
    var items :- Iterate(Get(content, "survey").GetOr(JList([])));
    var s :- RunUpTo(items, |items|);
    Ok(Finish(s.open))
  }

  /** A `begin_*` item with a usable name opens a new, empty group below the
      current one and makes it current; its `repeat` is true exactly for
      `begin_repeat`, its label is the extracted label with no fallback,
      and it takes the next sequence number. */
  lemma StepBegin(s: SurveyState, item: Obj)
    requires IsBegin(ItemType(item)) && Hashable(NameOf(item))
    ensures Step(s, JObj(item)).Ok?
    ensures var r := Step(s, JObj(item)).value;
      r.open[..|s.open|] == s.open && |r.open| == |s.open| + 1 &&
      r.open[|s.open|].key == Str(NameOf(item)) &&
      r.open[|s.open|].node.repeat == Some(ItemType(item) == JStr("begin_repeat")) &&
      r.open[|s.open|].node.labelValue == Some(ExtractLabel(item)) &&
      r.open[|s.open|].node.sequence == Some(s.sequence) &&
      QuestionsOf(r.open[|s.open|].node) == [] && GroupsOf(r.open[|s.open|].node) == [] &&
      r.sequence == s.sequence + 1 && r.rootEntry == s.rootEntry
  {
    var r := Step(s, JObj(item)).value;
    assert r.open == s.open + [r.open[|s.open|]];
  }

  /** An `end_*` item files the current group under its key in the enclosing
      group, which becomes current; at the root it uses up the root entry of
      `group_stack`, and with that gone `pop` raises IndexError. */
  lemma StepEnd(s: SurveyState, item: Obj)
    requires IsEnd(ItemType(item))
    ensures |s.open| >= 2 ==>
      Step(s, JObj(item)).Ok? &&
      var r := Step(s, JObj(item)).value;
      var child, parent := s.open[|s.open| - 1], s.open[|s.open| - 2];
      |r.open| == |s.open| - 1 && r.open[..|s.open| - 2] == s.open[..|s.open| - 2] &&
      r.open[|s.open| - 2].key == parent.key &&
      Get(GroupsOf(r.open[|s.open| - 2].node), child.key) == Some(child.node) &&
      (forall k :: k != child.key ==> Get(GroupsOf(r.open[|s.open| - 2].node), k) == Get(GroupsOf(parent.node), k)) &&
      QuestionsOf(r.open[|s.open| - 2].node) == QuestionsOf(parent.node) &&
      r.sequence == s.sequence && r.rootEntry == s.rootEntry
    ensures |s.open| == 1 ==>
      Step(s, JObj(item)) == if s.rootEntry then Ok(s.(rootEntry := false)) else Err(IndexError)
  {
    if |s.open| >= 2 {
      var child, parent := s.open[|s.open| - 1], s.open[|s.open| - 2];
      var groups := GroupsOf(parent.node);
      SetGet(groups, child.key, child.node);
      forall k | k != child.key
        ensures Get(Set(groups, child.key, child.node), k) == Get(groups, k)
      {
        SetOther(groups, child.key, child.node, k);
      }
    }
  }

  /** An item that is neither `begin_*` nor `end_*` and has a name becomes a
      question of the current group under that name, takes the next
      sequence number, and is labelled by its extracted label or else its
      name; `list_name` is present exactly when `select_from_list_name` is.
      An item without a name changes nothing. */
  lemma StepQuestion(s: SurveyState, item: Obj)
    requires !IsBegin(ItemType(item)) && !IsEnd(ItemType(item))
    ensures !Truthy(NameOf(item)) ==> Step(s, JObj(item)) == Ok(s)
    ensures Truthy(NameOf(item)) && Hashable(NameOf(item)) ==>
      Step(s, JObj(item)).Ok? &&
      var r := Step(s, JObj(item)).value;
      var current := s.open[|s.open| - 1];
      var q := Get(QuestionsOf(r.open[|s.open| - 1].node), Str(NameOf(item)));
      |r.open| == |s.open| && r.open[..|s.open| - 1] == s.open[..|s.open| - 1] &&
      r.open[|s.open| - 1].key == current.key && GroupsOf(r.open[|s.open| - 1].node) == GroupsOf(current.node) &&
      q.Some? && q.value.sequence == Some(s.sequence) &&
      q.value.labelValue == Some(if Truthy(ExtractLabel(item)) then ExtractLabel(item) else NameOf(item)) &&
      (q.value.listName.Some? <==> "select_from_list_name" in Keys(item)) &&
      r.sequence == s.sequence + 1 && r.rootEntry == s.rootEntry
  {
    if Truthy(NameOf(item)) && Hashable(NameOf(item)) {
      var current := s.open[|s.open| - 1];
      SetGet(QuestionsOf(current.node), Str(NameOf(item)), NewQuestionSpec(item, NameOf(item), s.sequence));
      GetLaws(item, "select_from_list_name");
    }
  }

  /** A `begin_*` item with a usable name, as the loop of
      `ParseSurveyContent` computes it. */
  lemma StepOpensGroup(open: OpenFrames, rootEntry: bool, sequence: int, item: Json)
    requires item.JObj? && IsBegin(ItemType(item.fields)) && Hashable(NameOf(item.fields))
    ensures Step(SurveyState(open, rootEntry, sequence), item) ==
      Ok(SurveyState(open + [Frame(Str(NameOf(item.fields)), NewGroupNode(item.fields, sequence))], rootEntry, sequence + 1))
  {
  }

  /** A named question, as the loop of `ParseSurveyContent` computes it. */
  lemma StepAddsQuestion(open: OpenFrames, rootEntry: bool, sequence: int, item: Json)
    requires item.JObj? && !IsBegin(ItemType(item.fields)) && !IsEnd(ItemType(item.fields))
    requires Truthy(NameOf(item.fields)) && Hashable(NameOf(item.fields))
    ensures Step(SurveyState(open, rootEntry, sequence), item) ==
      Ok(SurveyState(AddQuestion(open, Str(NameOf(item.fields)), NewQuestionSpec(item.fields, NameOf(item.fields), sequence)), rootEntry, sequence + 1))
  {
  }

  /** An `end_*` item, as the loop of `ParseSurveyContent` computes it. */
  lemma StepClosesGroup(open: OpenFrames, rootEntry: bool, sequence: int, item: Json)
    requires item.JObj? && !IsBegin(ItemType(item.fields)) && IsEnd(ItemType(item.fields))
    ensures Step(SurveyState(open, rootEntry, sequence), item) ==
      if |open| > 1 then Ok(SurveyState(CloseGroup(open), rootEntry, sequence))
      else if rootEntry then Ok(SurveyState(open, false, sequence))
      else Err(IndexError)
  {
  }

  /** An item that is neither `begin_*` nor `end_*` and has no name, as the
      loop of `ParseSurveyContent` computes it. */
  lemma StepSkips(open: OpenFrames, rootEntry: bool, sequence: int, item: Json)
    requires item.JObj? && !IsBegin(ItemType(item.fields)) && !IsEnd(ItemType(item.fields))
    requires !Truthy(NameOf(item.fields))
    ensures Step(SurveyState(open, rootEntry, sequence), item) == Ok(SurveyState(open, rootEntry, sequence))
  {
  }

  /** The items that take a sequence number: opened groups and named questions. */
  predicate Numbered(item: Json) {
    item.JObj? && (IsBegin(ItemType(item.fields)) || (!IsEnd(ItemType(item.fields)) && Truthy(NameOf(item.fields))))
  }

  function NumberedUpTo(items: seq<Json>, n: nat): nat
    requires n <= |items|
  {
    if n == 0 then 0 else NumberedUpTo(items, n - 1) + if Numbered(items[n - 1]) then 1 else 0
  }

  /** The counter after `n` items is the number of opened groups and named
      questions among them: every such item takes the next number, so the
      numbers increase strictly in document order. */
  lemma {:induction false} RunSequence(items: seq<Json>, n: nat)
    requires n <= |items| && RunUpTo(items, n).Ok?
    ensures RunUpTo(items, n).value.sequence == NumberedUpTo(items, n)
  {
    if n > 0 {
      RunSequence(items, n - 1);
    }
  }

  /** Opened minus closed groups among the first `n` items. */
  function Depth(items: seq<Json>, n: nat): int
    requires n <= |items|
  {
    if n == 0 then 0
    else if !items[n - 1].JObj? then Depth(items, n - 1)
    else if IsBegin(ItemType(items[n - 1].fields)) then Depth(items, n - 1) + 1
    else if IsEnd(ItemType(items[n - 1].fields)) then Depth(items, n - 1) - 1
    else Depth(items, n - 1)
  }

  /** As long as no `end_*` closes more groups than were opened, the root
      entry of `group_stack` is never used, so `group_stack` is one entry
      longer than the number of open groups. */
  lemma {:induction false} RunDepth(items: seq<Json>, n: nat)
    requires n <= |items| && RunUpTo(items, n).Ok?
    requires forall m :: 0 <= m <= n ==> Depth(items, m) >= 0
    ensures |RunUpTo(items, n).value.open| == Depth(items, n) + 1
    ensures RunUpTo(items, n).value.rootEntry
  {
    if n > 0 {
      RunDepth(items, n - 1);
    }
  }

  // ---------------------------------------------------------------------
  // _parse_choices_content
  // ---------------------------------------------------------------------

  /** One choice record. */
  datatype Choice = Choice(name: Json, labelValue: Json, listName: Json, sequence: int)

  type ChoiceLists = Dict<Json, Dict<Json, Choice>>

  /** The choice lists after one more choice, numbered `sequence`. */
  function AddChoice(lists: ChoiceLists, choiceData: Json, sequence: nat): Result<ChoiceLists> {
    var listName :- Subscript(choiceData, "list_name");
    if !Hashable(listName) then Err(TypeError)
    else
      var bucket := Get(lists, listName).GetOr([]);
      var lbl := ExtractLabel(choiceData.fields);
      var name :- Subscript(choiceData, "name");
      if !Hashable(name) then Err(TypeError)
      else
        var choice := Choice(name, if Truthy(lbl) then lbl else name, listName, sequence);
        Ok(Set(lists, listName, Set(bucket, name, choice)))
  }

  /** The choice lists after the first `n` choices, or the first error; the
      `i`-th choice is numbered `i`, whatever its list. */
  function ChoicesUpTo(items: seq<Json>, n: nat): Result<ChoiceLists>
    requires n <= |items|
  {
    FoldUpTo(AddChoice, [], items, n)
  }

  /** `_parse_choices_content(content)`. */
  function ChoiceListsOf(content: Obj): Result<ChoiceLists> {
    var items :- Iterate(Get(content, "choices").GetOr(JList([])));
    ChoicesUpTo(items, |items|)
  }

  /** Adding a choice files it, with the next number, under its name in the
      bucket of its list (overwriting an earlier choice of that name there;
      the label falls back to the name), creates the bucket on a list's
      first choice, and leaves every other entry alone. */
  lemma AddChoiceLaws(lists: ChoiceLists, choiceData: Obj, sequence: nat, listName: Json, name: Json)
    requires Get(choiceData, "list_name") == Some(listName) && Get(choiceData, "name") == Some(name)
    requires Hashable(listName) && Hashable(name)
    ensures AddChoice(lists, JObj(choiceData), sequence).Ok?
    ensures var r := AddChoice(lists, JObj(choiceData), sequence).value;
      var lbl := ExtractLabel(choiceData);
      var bucket := Get(r, listName);
      bucket.Some? &&
      Get(bucket.value, name) == Some(Choice(name, if Truthy(lbl) then lbl else name, listName, sequence)) &&
      (forall n :: n != name ==> Get(bucket.value, n) == Get(Get(lists, listName).GetOr([]), n)) &&
      (forall l :: l != listName ==> Get(r, l) == Get(lists, l)) &&
      (listName !in Keys(lists) ==> Keys(r) == Keys(lists) + [listName]) &&
      (listName in Keys(lists) ==> Keys(r) == Keys(lists))
  {
    var bucket := Get(lists, listName).GetOr([]);
    var lbl := ExtractLabel(choiceData);
    var choice := Choice(name, if Truthy(lbl) then lbl else name, listName, sequence);
    var newBucket := Set(bucket, name, choice);
    SetGet(lists, listName, newBucket);
    SetGet(bucket, name, choice);
    SetKeys(lists, listName, newBucket);
    forall n | n != name
      ensures Get(newBucket, n) == Get(bucket, n)
    {
      SetOther(bucket, name, choice, n);
    }
    forall l | l != listName
      ensures Get(Set(lists, listName, newBucket), l) == Get(lists, l)
    {
      SetOther(lists, listName, newBucket, l);
    }
  }

  /** What a choice that is filed without error consists of. */
  lemma AddChoiceResult(lists: ChoiceLists, choiceData: Json, sequence: nat)
    requires AddChoice(lists, choiceData, sequence).Ok?
    ensures choiceData.JObj?
    ensures Get(choiceData.fields, "list_name").Some? && Get(choiceData.fields, "name").Some?
    ensures var listName, name := Get(choiceData.fields, "list_name").value, Get(choiceData.fields, "name").value;
      var lbl := ExtractLabel(choiceData.fields);
      AddChoice(lists, choiceData, sequence).value ==
        Set(lists, listName, Set(Get(lists, listName).GetOr([]), name, Choice(name, if Truthy(lbl) then lbl else name, listName, sequence)))
  {
  }

  /** Every filed choice sits in the bucket of its own list under its own
      name, and carries a number below the count of choices read. */
  ghost predicate ChoicesFiled(lists: ChoiceLists, n: int) {
    forall l: Json, b: Dict<Json, Choice> :: (l, b) in lists ==>
      forall nm: Json, c: Choice :: (nm, c) in b ==> c.listName == l && c.name == nm && 0 <= c.sequence < n
  }

  /** Filing one more choice under its own list and name keeps every
      choice filed, the lists distinct and each bucket distinct. */
  lemma FiledAfterAdd(lists: ChoiceLists, listName: Json, name: Json, choice: Choice, k: int, n: int)
    requires ChoicesFiled(lists, k) && k <= n && Distinct(lists)
    requires forall l: Json, b: Dict<Json, Choice> :: (l, b) in lists ==> Distinct(b)
    requires choice.listName == listName && choice.name == name && 0 <= choice.sequence < n
    ensures var r := Set(lists, listName, Set(Get(lists, listName).GetOr([]), name, choice));
      ChoicesFiled(r, n) && Distinct(r) && forall l: Json, b: Dict<Json, Choice> :: (l, b) in r ==> Distinct(b)
  {
    var bucket := Get(lists, listName).GetOr([]);
    var newBucket := Set(bucket, name, choice);
    var r := Set(lists, listName, newBucket);
    SetDistinct(lists, listName, newBucket);
    GetLaws(lists, listName);
    forall l: Json, b: Dict<Json, Choice> | (l, b) in r
      ensures Distinct(b) && forall nm: Json, c: Choice :: (nm, c) in b ==> c.listName == l && c.name == nm && 0 <= c.sequence < n
    {
      SetMembers(lists, listName, newBucket, (l, b));
      if (l, b) != (listName, newBucket) {
        assert (l, b) in lists;
      } else {
        if Get(lists, listName).Some? {
          assert (listName, bucket) in lists;
        }
        SetDistinct(bucket, name, choice);
        forall nm: Json, c: Choice | (nm, c) in b
          ensures c.listName == l && c.name == nm && 0 <= c.sequence < n
        {
          SetMembers(bucket, name, choice, (nm, c));
        }
      }
    }
  }

  /** After any number of choices, every choice is filed in the bucket of
      its own list under its own name with a number below the count read,
      and no list and no name within a list occurs twice. */
  lemma {:induction false} ChoicesUpToFiled(items: seq<Json>, n: nat)
    requires n <= |items| && ChoicesUpTo(items, n).Ok?
    ensures ChoicesFiled(ChoicesUpTo(items, n).value, n)
    ensures Distinct(ChoicesUpTo(items, n).value)
    ensures forall l: Json, b: Dict<Json, Choice> :: (l, b) in ChoicesUpTo(items, n).value ==> Distinct(b)
  {
    if n > 0 {
      var lists := ChoicesUpTo(items, n - 1).value;
      ChoicesUpToFiled(items, n - 1);
      assert ChoicesFiled(lists, n - 1) && Distinct(lists) &&
        forall l: Json, b: Dict<Json, Choice> :: (l, b) in lists ==> Distinct(b);
      FoldUpToNext(AddChoice, [], items, n - 1, lists);
      AddChoiceResult(lists, items[n - 1], n - 1);
      var choiceData := items[n - 1].fields;
      var listName := Get(choiceData, "list_name").value;
      var name := Get(choiceData, "name").value;
      var lbl := ExtractLabel(choiceData);
      FiledAfterAdd(lists, listName, name, Choice(name, if Truthy(lbl) then lbl else name, listName, n - 1), n - 1, n);
    }
  }

  // ---------------------------------------------------------------------
  // The client object
  // ---------------------------------------------------------------------

  class Kobo {
    /** The URL the HTTP client is created with. */
    const url: string
    const token: string
    const debug: bool

    /** `__init__`: an endpoint alias is replaced by its URL. */
    constructor(token: string, endpoint: string, debug: bool)
      ensures url == ResolveEndpoint(endpoint) && this.token == token && this.debug == debug
    {
      url := ResolveEndpoint(endpoint);
      this.token := token;
      this.debug := debug;
    }

    /** `get_data(asset_uid, **params)`: the request path and the query
        parameters it is sent with.  `submitted_after` never reaches the
        request: next to an explicit `query` it is dropped, alone it becomes
        a `query` on `_submission_time`, appended last; every other
        parameter passes through unchanged. */
    method GetData(assetUid: string, params: Dict<string, Json>) returns (path: string, query: Dict<string, Json>)
      requires Distinct(params)
      ensures path == "/assets/" + assetUid + "/data.json"
      ensures Distinct(query)
      ensures "submitted_after" !in Keys(query)
      ensures forall k :: k != "query" && k != "submitted_after" ==> Get(query, k) == Get(params, k)
      ensures Get(query, "query") ==
        if "query" in Keys(params) then Get(params, "query")
        else if Get(params, "submitted_after").Some? then Some(JStr(SubmittedAfterQuery(Get(params, "submitted_after").value)))
        else None
      ensures "query" in Keys(params) || "submitted_after" !in Keys(params) ==>
        forall k :: k in Keys(query) <==> k in Keys(params) && k != "submitted_after"
      ensures "query" !in Keys(params) && "submitted_after" in Keys(params) ==>
        Keys(query) == Keys(Remove(params, "submitted_after")) + ["query"]
    {
      GetLaws(params, "query");
      GetLaws(params, "submitted_after");
      query := params;
      if "query" in Keys(query) && "submitted_after" in Keys(query) {
        query := Remove(query, "submitted_after");
      } else if "submitted_after" in Keys(query) {
        var submittedAfter := Get(query, "submitted_after").value;
        query := Remove(query, "submitted_after");
        var dropped := query;
        query := Set(query, "query", JStr(SubmittedAfterQuery(submittedAfter)));
        SetKeys(dropped, "query", JStr(SubmittedAfterQuery(submittedAfter)));
        SetGet(dropped, "query", JStr(SubmittedAfterQuery(submittedAfter)));
        SetDistinct(dropped, "query", JStr(SubmittedAfterQuery(submittedAfter)));
        forall k | k != "query"
          ensures Get(query, k) == Get(dropped, k)
        {
          SetOther(dropped, "query", JStr(SubmittedAfterQuery(submittedAfter)), k);
        }
      }
      path := "/assets/" + assetUid + "/data.json";
    }

    /** `_find_download_url(asset, format_type)`: the url of the first
        download with that format, or None. */
    method FindDownloadUrl(asset: Obj, formatType: string) returns (r: Result<Json>)
      ensures r == DownloadUrl(asset, formatType)
    {
      var iterated := Iterate(Get(asset, "downloads").GetOr(JList([])));
      if iterated.Err? {
        return Err(iterated.error);
      }
      var downloads := iterated.value;
      for i := 0 to |downloads|
        invariant FirstUrlFrom(downloads, formatType, 0) == FirstUrlFrom(downloads, formatType, i)
      {
        var download := downloads[i];
        if !download.JObj? {
          return Err(AttributeError);
        }
        if Get(download.fields, "format") == Some(JStr(formatType)) {
          return Ok(Get(download.fields, "url").GetOr(JNull));
        }
      }
      r := Ok(JNull);
    }

    /** `_parse_survey_content(content)`: runs the stack machine over the
        survey items and returns the root group. */
    method ParseSurveyContent(content: Obj) returns (r: Result<GroupSpec>)
      ensures r == SurveyTree(content)
    {
      var iterated := Iterate(Get(content, "survey").GetOr(JList([])));
      if iterated.Err? {
        return Err(iterated.error);
      }
      var items := iterated.value;
      var sequence := 0;
      var open: OpenFrames := [Frame("", EmptyRoot)];
      var rootEntry := true;
      for i := 0 to |items|
        invariant RunUpTo(items, i) == Ok(SurveyState(open, rootEntry, sequence))
      {
        var item := items[i];
        FoldUpToNext(StepAt, InitialState(), items, i, SurveyState(open, rootEntry, sequence));
        if !item.JObj? {
          FoldUpToErr(StepAt, InitialState(), items, i + 1, |items|);
          return Err(AttributeError);
        }
        var itemType := ItemType(item.fields);
        if IsBegin(itemType) {
          var newGroup := NewGroupNode(item.fields, sequence);
          var name := NameOf(item.fields);
          if !Hashable(name) {
            FoldUpToErr(StepAt, InitialState(), items, i + 1, |items|);
            return Err(TypeError);
          }
          StepOpensGroup(open, rootEntry, sequence, item);
          open := open + [Frame(Str(name), newGroup)];
          sequence := sequence + 1;
        } else if IsEnd(itemType) {
          StepClosesGroup(open, rootEntry, sequence, item);
          if |open| > 1 {
            open := CloseGroup(open);
          } else if rootEntry {
            rootEntry := false;
          } else {
            FoldUpToErr(StepAt, InitialState(), items, i + 1, |items|);
            return Err(IndexError);
          }
        } else {
          var name := NameOf(item.fields);
          if !Truthy(name) {
            StepSkips(open, rootEntry, sequence, item);
          } else {
            var question := NewQuestionSpec(item.fields, name, sequence);
            if !Hashable(name) {
              FoldUpToErr(StepAt, InitialState(), items, i + 1, |items|);
              return Err(TypeError);
            }
            StepAddsQuestion(open, rootEntry, sequence, item);
            open := AddQuestion(open, Str(name), question);
            sequence := sequence + 1;
          }
        }
      }
      r := Ok(Finish(open));
    }

    /** `_parse_choices_content(content)`: buckets the choices by list, one
        counter shared by all lists. */
    method ParseChoicesContent(content: Obj) returns (r: Result<ChoiceLists>)
      ensures r == ChoiceListsOf(content)
    {
      var iterated := Iterate(Get(content, "choices").GetOr(JList([])));
      if iterated.Err? {
        return Err(iterated.error);
      }
      var items := iterated.value;
      var choiceLists: ChoiceLists := [];
      var sequence := 0;
      for i := 0 to |items|
        invariant ChoicesUpTo(items, i) == Ok(choiceLists)
        invariant sequence == i
      {
        var choiceData := items[i];
        FoldUpToNext(AddChoice, [], items, i, choiceLists);
        var listName := Subscript(choiceData, "list_name");
        if listName.Err? {
          FoldUpToErr(AddChoice, [], items, i + 1, |items|);
          return Err(listName.error);
        }
        if !Hashable(listName.value) {
          FoldUpToErr(AddChoice, [], items, i + 1, |items|);
          return Err(TypeError);
        }
        ghost var before := choiceLists;
        GetLaws(before, listName.value);
        if listName.value !in Keys(choiceLists) {
          choiceLists := Set(choiceLists, listName.value, []);
          SetGet(before, listName.value, []);
        }
        var lbl := ExtractLabel(choiceData.fields);
        var name := Subscript(choiceData, "name");
        if name.Err? {
          FoldUpToErr(AddChoice, [], items, i + 1, |items|);
          return Err(name.error);
        }
        if !Hashable(name.value) {
          FoldUpToErr(AddChoice, [], items, i + 1, |items|);
          return Err(TypeError);
        }
        var bucket := Get(choiceLists, listName.value).value;
        var choice := Choice(name.value, if Truthy(lbl) then lbl else name.value, listName.value, sequence);
        SetTwice(before, listName.value, [], Set(bucket, name.value, choice));
        choiceLists := Set(choiceLists, listName.value, Set(bucket, name.value, choice));
        assert choiceLists == Set(before, listName.value, Set(Get(before, listName.value).GetOr([]), name.value, choice));
        sequence := sequence + 1;
      }
      r := Ok(choiceLists);
    }
  }
}
