/**
 * The topic-selection exchange of geminiService.ts: numbering the topics
 * of some subjects (`prepareTopicSelection`), resolving the student's reply
 * against the numbered options (`tryHandleTopicSelection`), and the reply
 * about the chosen topic (`formatTopicDetailResponse`).
 */
module Selection {
  import opened Text
  import opened Records
  import opened Intents
  import opened Knowledge
  import opened StudyGuide

  // ---------------------------------------------------------------------
  // The selection state
  // ---------------------------------------------------------------------

  /** `TopicSelectionSubtopic`; a null description is "". */
  datatype SelectionSubtopic = SelectionSubtopic(id: Option<int>, title: string, description: string)

  /** `TopicSelectionOption`; a null topic description is "". */
  datatype TopicOption = TopicOption(
    id: string, materia: string, topic: string, topicDescription: string,
    subtopics: seq<SelectionSubtopic>)

  /** Which reply offered the options. */
  datatype Source = RoadmapSource | SyllabusSource

  /** `TopicSelectionState` */
  datatype SelectionState = SelectionState(options: seq<TopicOption>, source: Source, prompt: string)

  /** `TopicSelectionPreparation` */
  datatype Preparation = Preparation(state: SelectionState, message: string)

  function AsSelectionSubtopic(s: Subtopic): SelectionSubtopic {
    SelectionSubtopic(s.id, s.title, s.description)
  }

  function SelectionSubtopics(subs: seq<Subtopic>): (r: seq<SelectionSubtopic>)
    ensures |r| == |subs| && forall i :: 0 <= i < |subs| ==> r[i] == AsSelectionSubtopic(subs[i])
  {
    seq(|subs|, i requires 0 <= i < |subs| => AsSelectionSubtopic(subs[i]))
  }

  /** The option offered for topic `t` of subject `materia` under number `id`. */
  function OptionOf(id: string, materia: string, t: Topic): TopicOption {
    TopicOption(id, materia, t.title, t.description, SelectionSubtopics(t.subtopics))
  }

  /** `createOptionFromTema`: the option for a topic named directly, with id "0". */
  function OptionFromTopic(materia: string, t: Topic): TopicOption {
    OptionOf("0", materia, t)
  }

  // ---------------------------------------------------------------------
  // prepareTopicSelection
  // ---------------------------------------------------------------------

  const SelectionInstruction := "Indica el numero o el nombre del tema/subtema que deseas repasar."

  function SubtopicTitles(subs: seq<Subtopic>): (r: seq<string>)
    ensures |r| == |subs| && forall i :: 0 <= i < |subs| ==> r[i] == subs[i].title
  {
    seq(|subs|, i requires 0 <= i < |subs| => subs[i].title)
  }

  /** The options for the titled topics among the first `n` of `ts`, numbered from `next` on. */
  function TopicOptions(materia: string, ts: seq<Topic>, n: nat, next: nat): seq<TopicOption>
    requires n <= |ts|
    decreases n
  {
    if n == 0 then []
    else
      var opts := TopicOptions(materia, ts, n - 1, next);
      var t := ts[n - 1];
      if t.title == "" then opts else opts + [OptionOf(NatToString(next + |opts|), materia, t)]
  }

  /** The prompt lines of one numbered topic. */
  function OptionLines(id: string, t: Topic): seq<string> {
    ["  " + id + ". " + t.title]
    + (if t.subtopics == [] then [] else ["     Subtemas: " + Join(SubtopicTitles(t.subtopics), ", ")])
  }

  /** The prompt lines of the titled topics among the first `n` of `ts`, numbered from `next` on. */
  function TopicLines(materia: string, ts: seq<Topic>, n: nat, next: nat): seq<string>
    requires n <= |ts|
    decreases n
  {
    if n == 0 then []
    else
      var t := ts[n - 1];
      var lines := TopicLines(materia, ts, n - 1, next);
      if t.title == "" then lines
      else lines + OptionLines(NatToString(next + |TopicOptions(materia, ts, n - 1, next)|), t)
  }

  /** The options of the first `n` subjects, numbered consecutively from 1. */
  function Options(ms: seq<SubjectSyllabus>, n: nat): seq<TopicOption>
    requires n <= |ms|
    decreases n
  {
    if n == 0 then []
    else
      var opts := Options(ms, n - 1);
      var m := ms[n - 1];
      opts + TopicOptions(m.subject, m.topics, |m.topics|, |opts| + 1)
  }

  /** The prompt lines of the first `n` subjects. */
  function Lines(ms: seq<SubjectSyllabus>, n: nat): seq<string>
    requires n <= |ms|
    decreases n
  {
    if n == 0 then []
    else Lines(ms, n - 1) + SubjectLines(ms[n - 1], |Options(ms, n - 1)| + 1)
  }

  /** The header, numbered topics and blank line of one subject, nothing when it has no topics. */
  function SubjectLines(m: SubjectSyllabus, next: nat): seq<string> {
    if m.topics == [] then [] else [m.subject + ":"] + TopicLines(m.subject, m.topics, |m.topics|, next) + [""]
  }

  /** What `prepareTopicSelection` returns: null when no titled topic is offered. */
  function TopicSelectionOf(ms: seq<SubjectSyllabus>, source: Source): (r: Option<Preparation>)
    ensures r.None? <==> Options(ms, |ms|) == []
    ensures r.Some? ==> r.value.state.options == Options(ms, |ms|) && r.value.state.source == source
                        && r.value.message == r.value.state.prompt
  {
    var opts := Options(ms, |ms|);
    if opts == [] then None
    else
      var prompt := Trim(Join(Lines(ms, |ms|) + [SelectionInstruction], "\n"));
      Some(Preparation(SelectionState(opts, source, prompt), prompt))
  }

  /** `prepareTopicSelection`: the numbered listing, then the prompt; null when nothing is listed. */
  method PrepareTopicSelection(ms: seq<SubjectSyllabus>, source: Source) returns (r: Option<Preparation>)
    ensures r == TopicSelectionOf(ms, source)
  {
    var options, lines := CollectTopicOptions(ms);
    if options == [] {
      return None;
    }
    var prompt := Trim(Join(lines + [SelectionInstruction], "\n"));
    r := Some(Preparation(SelectionState(options, source, prompt), prompt));
  }

  /** The counter loop over subjects and their topics. */
  method CollectTopicOptions(ms: seq<SubjectSyllabus>) returns (options: seq<TopicOption>, lines: seq<string>)
    ensures options == Options(ms, |ms|) && lines == Lines(ms, |ms|)
  {
    options, lines := [], [];
    var counter := 1;
    for i := 0 to |ms|
      invariant options == Options(ms, i) && lines == Lines(ms, i)
      invariant counter == |options| + 1
    {
      SelectionStep(ms, i);
      options, lines, counter := PushSubject(ms[i], options, lines, counter);
    }
  }

  /** One more subject extends the options and the lines by that subject's own. */
  lemma SelectionStep(ms: seq<SubjectSyllabus>, i: nat)
    requires i < |ms|
    ensures Options(ms, i + 1)
            == Options(ms, i) + TopicOptions(ms[i].subject, ms[i].topics, |ms[i].topics|, |Options(ms, i)| + 1)
    ensures Lines(ms, i + 1) == Lines(ms, i) + SubjectLines(ms[i], |Options(ms, i)| + 1)
  {
  }

  /** One subject: its header, its topics and a blank line, when it has topics. */
  method PushSubject(m: SubjectSyllabus, options0: seq<TopicOption>, lines0: seq<string>, counter0: nat)
    returns (options: seq<TopicOption>, lines: seq<string>, counter: nat)
    requires counter0 == |options0| + 1
    ensures options == options0 + TopicOptions(m.subject, m.topics, |m.topics|, counter0)
    ensures lines == lines0 + SubjectLines(m, counter0)
    ensures counter == |options| + 1
  {
    options, lines, counter := options0, lines0, counter0;
    if m.topics != [] {
      lines := lines + [m.subject + ":"];
      options, lines, counter := PushTopicOptions(m.subject, m.topics, options, lines, counter);
      lines := lines + [""];
      assert lines == lines0 + ([m.subject + ":"] + TopicLines(m.subject, m.topics, |m.topics|, counter0) + [""]);
    }
  }

  /** The loop over one subject's topics, numbering the titled ones from `counter` on. */
  method PushTopicOptions(materia: string, ts: seq<Topic>, options0: seq<TopicOption>, lines0: seq<string>, counter0: nat)
    returns (options: seq<TopicOption>, lines: seq<string>, counter: nat)
    requires counter0 == |options0| + 1
    ensures options == options0 + TopicOptions(materia, ts, |ts|, counter0)
    ensures lines == lines0 + TopicLines(materia, ts, |ts|, counter0)
    ensures counter == |options| + 1
  {
    options, lines, counter := options0, lines0, counter0;
    for j := 0 to |ts|
      invariant options == options0 + TopicOptions(materia, ts, j, counter0)
      invariant lines == lines0 + TopicLines(materia, ts, j, counter0)
      invariant counter == |options| + 1
    {
      var t := ts[j];
      if t.title != "" {
        var id := NatToString(counter);
        assert counter == counter0 + |TopicOptions(materia, ts, j, counter0)|;
        options, lines := PushTopic(materia, t, id, options, lines);
        counter := counter + 1;
      }
    }
  }

  /** The pushes for one titled topic: its numbered line, its subtopic line, its option. */
  method PushTopic(materia: string, t: Topic, id: string, options0: seq<TopicOption>, lines0: seq<string>)
    returns (options: seq<TopicOption>, lines: seq<string>)
    ensures options == options0 + [OptionOf(id, materia, t)]
    ensures lines == lines0 + OptionLines(id, t)
  {
    lines := lines0 + ["  " + id + ". " + t.title];
    if t.subtopics != [] {
      lines := lines + ["     Subtemas: " + Join(SubtopicTitles(t.subtopics), ", ")];
    }
    options := options0 + [OptionOf(id, materia, t)];
  }

  // What the numbering promises -----------------------------------------

  /** The titled topics among the first `n` of `ts`, each with its subject name, in order. */
  function TitledOf(materia: string, ts: seq<Topic>, n: nat): seq<(string, Topic)>
    requires n <= |ts|
    decreases n
  {
    if n == 0 then []
    else TitledOf(materia, ts, n - 1) + (if ts[n - 1].title == "" then [] else [(materia, ts[n - 1])])
  }

  /** The titled topics of the first `n` subjects, subject by subject. */
  function TitledTopics(ms: seq<SubjectSyllabus>, n: nat): seq<(string, Topic)>
    requires n <= |ms|
    decreases n
  {
    if n == 0 then []
    else TitledTopics(ms, n - 1) + TitledOf(ms[n - 1].subject, ms[n - 1].topics, |ms[n - 1].topics|)
  }

  /** `opts` are the topics of `titled`, in order, numbered from `from` on. */
  predicate Numbered(opts: seq<TopicOption>, titled: seq<(string, Topic)>, from: nat) {
    && |opts| == |titled|
    && forall k :: 0 <= k < |opts| ==> opts[k] == OptionOf(NatToString(from + k), titled[k].0, titled[k].1)
  }

  /** Two numbered runs, the second numbered on from the first, make one numbered run. */
  lemma NumberedConcat(opts: seq<TopicOption>, titled: seq<(string, Topic)>,
                       more: seq<TopicOption>, moreTitled: seq<(string, Topic)>, from: nat)
    requires Numbered(opts, titled, from) && Numbered(more, moreTitled, from + |opts|)
    ensures Numbered(opts + more, titled + moreTitled, from)
  {
    forall k | 0 <= k < |opts + more|
      ensures (opts + more)[k] == OptionOf(NatToString(from + k), (titled + moreTitled)[k].0, (titled + moreTitled)[k].1)
    {
      if k >= |opts| {
        assert (opts + more)[k] == more[k - |opts|];
        assert (titled + moreTitled)[k] == moreTitled[k - |opts|];
      }
    }
  }

  /** The subject's options are its titled topics, numbered from `next` on. */
  lemma {:induction false} TopicOptionsNumbered(materia: string, ts: seq<Topic>, n: nat, next: nat)
    requires n <= |ts|
    ensures Numbered(TopicOptions(materia, ts, n, next), TitledOf(materia, ts, n), next)
    decreases n
  {
    if n > 0 {
      TopicOptionsNumbered(materia, ts, n - 1, next);
      var opts, t := TopicOptions(materia, ts, n - 1, next), ts[n - 1];
      if t.title != "" {
        NumberedConcat(opts, TitledOf(materia, ts, n - 1), [OptionOf(NatToString(next + |opts|), materia, t)],
                       [(materia, t)], next);
      }
    }
  }

  /**
   * The options are exactly the titled topics, subject by subject and topic
   * by topic, numbered "1", "2", ... in that order.
   */
  lemma {:induction false} OptionsNumbered(ms: seq<SubjectSyllabus>, n: nat)
    requires n <= |ms|
    ensures Numbered(Options(ms, n), TitledTopics(ms, n), 1)
    decreases n
  {
    if n > 0 {
      var m := ms[n - 1];
      OptionsNumbered(ms, n - 1);
      var opts := Options(ms, n - 1);
      TopicOptionsNumbered(m.subject, m.topics, |m.topics|, |opts| + 1);
      NumberedConcat(opts, TitledTopics(ms, n - 1), TopicOptions(m.subject, m.topics, |m.topics|, |opts| + 1),
                     TitledOf(m.subject, m.topics, |m.topics|), 1);
    }
  }

  lemma {:induction false} TitledOfEmpty(materia: string, ts: seq<Topic>, n: nat)
    requires n <= |ts|
    ensures TitledOf(materia, ts, n) == [] <==> forall j :: 0 <= j < n ==> ts[j].title == ""
    decreases n
  {
    if n > 0 {
      TitledOfEmpty(materia, ts, n - 1);
    }
  }

  /** There is nothing to offer exactly when none of the first `n` subjects has a titled topic. */
  lemma {:induction false} TitledTopicsEmpty(ms: seq<SubjectSyllabus>, n: nat)
    requires n <= |ms|
    ensures TitledTopics(ms, n) == [] <==>
      forall i, j :: 0 <= i < n && 0 <= j < |ms[i].topics| ==> ms[i].topics[j].title == ""
    decreases n
  {
    if n > 0 {
      TitledTopicsEmpty(ms, n - 1);
      TitledOfEmpty(ms[n - 1].subject, ms[n - 1].topics, |ms[n - 1].topics|);
    }
  }

  /**
   * `prepareTopicSelection` returns null exactly when no topic has a title;
   * otherwise its options are the titled topics numbered from "1", and the
   * state remembers which reply offered them.
   */
  lemma PreparedSelection(ms: seq<SubjectSyllabus>, source: Source)
    ensures TopicSelectionOf(ms, source).None? <==>
      forall i, j :: 0 <= i < |ms| && 0 <= j < |ms[i].topics| ==> ms[i].topics[j].title == ""
    ensures var r, titled := TopicSelectionOf(ms, source), TitledTopics(ms, |ms|);
      r.Some? ==> r.value.state.source == source
                  && |r.value.state.options| == |titled|
                  && forall k :: 0 <= k < |titled| ==>
                       r.value.state.options[k].id == NatToString(k + 1)
                       && r.value.state.options[k].materia == titled[k].0
                       && r.value.state.options[k].topic == titled[k].1.title
  {
    OptionsNumbered(ms, |ms|);
    TitledTopicsEmpty(ms, |ms|);
  }

  /** Option numbers are pairwise distinct. */
  lemma OptionIdsDistinct(ms: seq<SubjectSyllabus>, a: int, b: int)
    requires 0 <= a < b < |Options(ms, |ms|)|
    ensures Options(ms, |ms|)[a].id != Options(ms, |ms|)[b].id
  {
    OptionsNumbered(ms, |ms|);
    NatToStringDistinct(a + 1, b + 1);
  }

  // ---------------------------------------------------------------------
  // tryHandleTopicSelection
  // ---------------------------------------------------------------------

  /** `normalizedMessage.match(/(\d{1,2})/)`: the first one or two consecutive ASCII digits. */
  function FirstDigitRun(s: string): (r: Option<string>)
    ensures r.None? <==> forall i :: 0 <= i < |s| ==> !IsAsciiDigit(s[i])
    ensures r.Some? ==> 1 <= |r.value| <= 2 && forall i :: 0 <= i < |r.value| ==> IsAsciiDigit(r.value[i])
  {
    var k := FindIndex(s, IsAsciiDigit);
    if k == -1 then None
    else if k + 1 < |s| && IsAsciiDigit(s[k + 1]) then Some(s[k..k + 2])
    else Some(s[k..k + 1])
  }

  /** The chosen option and the title of the chosen subtopic ("" for none). */
  datatype Selected = Selected(option: TopicOption, subtopic: string)

  /**
   * The normalised message contains the normalised title. With `guardEmpty`
   * a title that normalises to nothing is not contained in anything.
   */
  predicate Hit(norm: string -> string, nm: string, title: string, guardEmpty: bool) {
    (!guardEmpty || norm(title) != "") && Contains(nm, norm(title))
  }

  /** The first subtopic of the option whose title the message names. */
  function SubtopicHit(norm: string -> string, nm: string, subs: seq<SelectionSubtopic>, guardEmpty: bool): Option<SelectionSubtopic> {
    FindFirst(subs, (s: SelectionSubtopic) => Hit(norm, nm, s.title, guardEmpty))
  }

  /** What one option yields: itself when its topic is named, else with the first named subtopic. */
  function OptionHit(norm: string -> string, nm: string, o: TopicOption, guardEmpty: bool): Option<Selected> {
    if Hit(norm, nm, o.topic, guardEmpty) then Some(Selected(o, ""))
    else
      match SubtopicHit(norm, nm, o.subtopics, guardEmpty)
      case Some(s) => Some(Selected(o, s.title))
      case None => None
  }

  /** The scan over the options by name: the first option that yields something. */
  function ScanOptions(norm: string -> string, nm: string, options: seq<TopicOption>, guardEmpty: bool): (r: Option<Selected>)
    ensures r.None? <==> forall i :: 0 <= i < |options| ==> OptionHit(norm, nm, options[i], guardEmpty).None?
    ensures r.Some? ==> exists i :: 0 <= i < |options| && OptionHit(norm, nm, options[i], guardEmpty) == r
                                    && forall j :: 0 <= j < i ==> OptionHit(norm, nm, options[j], guardEmpty).None?
  {
    match FindFirst(options, (o: TopicOption) => OptionHit(norm, nm, o, guardEmpty).Some?)
    case Some(o) => OptionHit(norm, nm, o, guardEmpty)
    case None => None
  }

  lemma ScanOptionsAt(norm: string -> string, nm: string, options: seq<TopicOption>, guardEmpty: bool, k: int)
    requires 0 <= k < |options| && OptionHit(norm, nm, options[k], guardEmpty).Some?
    requires forall j :: 0 <= j < k ==> OptionHit(norm, nm, options[j], guardEmpty).None?
    ensures ScanOptions(norm, nm, options, guardEmpty) == OptionHit(norm, nm, options[k], guardEmpty)
  {
    FindFirstAt(options, (o: TopicOption) => OptionHit(norm, nm, o, guardEmpty).Some?, k);
  }

  /** A subtopic whose title normalises to nothing is named by every message, as written. */
  lemma EmptyTitleSelectsAnyMessage(norm: string -> string, nm: string, o: TopicOption)
    requires !Contains(nm, norm(o.topic))
    requires |o.subtopics| > 0 && norm(o.subtopics[0].title) == ""
    ensures ScanOptions(norm, nm, [o], false) == Some(Selected(o, o.subtopics[0].title))
  {
    ContainsEmpty(nm);
    FindFirstAt(o.subtopics, (s: SelectionSubtopic) => Hit(norm, nm, s.title, false), 0);
    ScanOptionsAt(norm, nm, [o], false, 0);
  }

  /**
   * With the empty normal form excluded, whatever the scan selects is named
   * by the message: the option's topic, or the subtopic it reports.
   */
  lemma ScanOptionsSound(norm: string -> string, nm: string, options: seq<TopicOption>)
    requires ScanOptions(norm, nm, options, true).Some?
    ensures var sel := ScanOptions(norm, nm, options, true).value;
      sel.option in options
      && (if sel.subtopic == "" && Hit(norm, nm, sel.option.topic, true) then true
          else exists j :: 0 <= j < |sel.option.subtopics| && sel.option.subtopics[j].title == sel.subtopic
                           && norm(sel.subtopic) != "" && Contains(nm, norm(sel.subtopic)))
  {
    var sel := ScanOptions(norm, nm, options, true).value;
    var i :| 0 <= i < |options| && OptionHit(norm, nm, options[i], true) == Some(sel);
    var o := options[i];
    if !Hit(norm, nm, o.topic, true) {
      var s := SubtopicHit(norm, nm, o.subtopics, true).value;
      assert s in o.subtopics;
    }
  }

  // The resolution --------------------------------------------------------

  const SelectionKeywords: seq<string> := ["tema", "subtema", "opcion", "numero", "repasar", "contenido"]
  const ReminderLine := "Recuerda indicarme el numero o el nombre del tema o subtema."

  /** The outcome of a reply while options are pending. */
  datatype Resolution = Unresolved | Remind(text: string) | Chosen(selected: Selected)

  /** The option whose id is the digit run, when there is one. */
  function ByNumber(nm: string, options: seq<TopicOption>): (r: Option<TopicOption>)
    ensures r.Some? ==> r.value in options && FirstDigitRun(nm) == Some(r.value.id)
    ensures r.None? <==> FirstDigitRun(nm).None? || forall o :: o in options ==> o.id != FirstDigitRun(nm).value
  {
    match FirstDigitRun(nm)
    case None => None
    case Some(run) => FindFirst(options, (o: TopicOption) => o.id == run)
  }

  /**
   * `tryHandleTopicSelection`: by number first, then by name, option by
   * option (topic title before subtopic titles); with no choice, the stored
   * prompt again when the message mentions the selection, else nothing.
   */
  function Resolve(norm: string -> string, pending: Option<SelectionState>, message: string): Resolution {
    if pending.None? || pending.value.options == [] then Unresolved
    else
      var state, nm := pending.value, norm(message);
      match ByNumber(nm, state.options)
      case Some(o) => Chosen(Selected(o, ""))
      case None =>
        match ScanOptions(norm, nm, state.options, true)
        case Some(sel) => Chosen(sel)
        case None =>
          if ContainsAny(nm, SelectionKeywords) then Remind(state.prompt + "\n\n" + ReminderLine)
          else Unresolved
  }

  /** Replying with the number of an option selects that option, for numbers below 100. */
  lemma NumberSelects(state: SelectionState, k: int)
    requires 0 <= k < |state.options| && k + 1 < 100
    requires forall i :: 0 <= i < |state.options| ==> state.options[i].id == NatToString(i + 1)
    ensures Resolve(NormalizeText, Some(state), NatToString(k + 1)) == Chosen(Selected(state.options[k], ""))
  {
    var n := NatToString(k + 1);
    NumeralIsItsOwnRun(k + 1);
    NumberFound(state.options, k);
    ResolveByNumber(NormalizeText, state, n, state.options[k]);
  }

  /** With options numbered from 1, a numeral below 100 finds the option it numbers. */
  lemma NumberFound(options: seq<TopicOption>, k: int)
    requires 0 <= k < |options| && k + 1 < 100
    requires forall i :: 0 <= i < |options| ==> options[i].id == NatToString(i + 1)
    ensures ByNumber(NatToString(k + 1), options) == Some(options[k])
  {
    var n := NatToString(k + 1);
    NumeralIsItsOwnRun(k + 1);
    EarlierIdsDiffer(options, k);
    FindFirstAt(options, (o: TopicOption) => o.id == n, k);
  }

  /** The options before the `k`-th carry other numbers than its own. */
  lemma EarlierIdsDiffer(options: seq<TopicOption>, k: int)
    requires 0 <= k < |options|
    requires forall i :: 0 <= i < |options| ==> options[i].id == NatToString(i + 1)
    ensures forall j :: 0 <= j < k ==> options[j].id != NatToString(k + 1)
  {
    forall j | 0 <= j < k
      ensures options[j].id != NatToString(k + 1)
    {
      NatToStringDistinct(j + 1, k + 1);
    }
  }

  /** An option found by number is chosen, without a subtopic. */
  lemma ResolveByNumber(norm: string -> string, state: SelectionState, message: string, o: TopicOption)
    requires ByNumber(norm(message), state.options) == Some(o)
    ensures Resolve(norm, Some(state), message) == Chosen(Selected(o, ""))
  {
  }

  /** A numeral below 100 is already normal and is its own first digit run. */
  lemma NumeralIsItsOwnRun(m: nat)
    requires m < 100
    ensures NormalizeText(NatToString(m)) == NatToString(m)
    ensures FirstDigitRun(NatToString(m)) == Some(NatToString(m))
  {
    var n := NatToString(m);
    NatToStringShape(m);
    NumeralIsNormal(n);
    assert FindIndex(n, IsAsciiDigit) == 0;
    assert n[0..|n|] == n;
  }

  lemma NumeralIsNormal(n: string)
    requires n != [] && forall i :: 0 <= i < |n| ==> IsAsciiDigit(n[i])
    ensures NormalizeText(n) == n
  {
    assert forall i :: 0 <= i < |n| ==> Normal(n[i]);
    NormalizeOfNormal(n);
  }

  /** From 100 on, an option can never be chosen by its number: the digit run stops at two. */
  lemma NoSelectionByThreeDigits(nm: string, n: nat)
    requires n >= 100
    ensures FirstDigitRun(nm) != Some(NatToString(n))
  {
    NatToStringShape(n);
  }

  /** A choice is made only from the pending options, by number or by a non-empty name. */
  lemma ChosenFromOptions(norm: string -> string, pending: Option<SelectionState>, message: string)
    requires Resolve(norm, pending, message).Chosen?
    ensures pending.Some? && Resolve(norm, pending, message).selected.option in pending.value.options
  {
    var nm := norm(message);
    if ByNumber(nm, pending.value.options).None? {
      ScanOptionsSound(norm, nm, pending.value.options);
    }
  }

  /** Without pending options the handler never answers. */
  lemma NothingPending(norm: string -> string, message: string, source: Source, prompt: string)
    ensures Resolve(norm, None, message) == Unresolved
    ensures Resolve(norm, Some(SelectionState([], source, prompt)), message) == Unresolved
  {
  }

  // ---------------------------------------------------------------------
  // formatTopicDetailResponse
  // ---------------------------------------------------------------------

  const SubtopicsAvailable := "Subtemas disponibles:"
  const AnotherTopicHint := "Si deseas repasar otro tema, dime el numero o el nombre."

  /** The `Subtema destacado` line, when the option lists the subtopic. */
  function Highlight(option: TopicOption, subtopicTitle: string): string {
    if subtopicTitle == "" then ""
    else
      match FindFirst(option.subtopics, (s: SelectionSubtopic) => Equivalent(s.title, subtopicTitle))
      case None => ""
      case Some(s) =>
        "\n\nSubtema destacado: " + s.title + (if s.description != "" then " - " + s.description else "")
  }

  function SubtopicItem(s: SelectionSubtopic): string {
    if s.description != "" then "- " + s.title + ": " + s.description else "- " + s.title
  }

  function SubtopicItems(subs: seq<SelectionSubtopic>): (r: seq<string>)
    ensures |r| == |subs| && forall i :: 0 <= i < |subs| ==> r[i] == SubtopicItem(subs[i])
  {
    seq(|subs|, i requires 0 <= i < |subs| => SubtopicItem(subs[i]))
  }

  /** The reply built from the option alone, when the knowledge base has no guide. */
  function FallbackLines(option: TopicOption, subtopicTitle: string): seq<string> {
    FallbackOpening(option) + FallbackListing(option)
    + ["", GenerateStudyLinks(OrDefault(subtopicTitle, option.topic), option.materia), "", AnotherTopicHint]
  }

  /** The heading, and the summary when the option has a description. */
  function FallbackOpening(option: TopicOption): seq<string> {
    [option.materia + " - " + option.topic]
    + (if option.topicDescription != "" then ["Resumen: " + option.topicDescription] else [])
  }

  /** The subtopic list, when the option has subtopics. */
  function FallbackListing(option: TopicOption): seq<string> {
    if option.subtopics != [] then ["", SubtopicsAvailable] + SubtopicItems(option.subtopics) else []
  }

  /** The subtopic guide looked up first, only when a subtopic was chosen. */
  function DetailLookup(kb: KnowledgeMap, option: TopicOption, subtopicTitle: string): Option<(TopicGuide, SubtopicGuide)> {
    if subtopicTitle != "" then SubtopicStudyGuide(kb, option.materia, option.topic, subtopicTitle) else None
  }

  /** The reply given the two lookups' results: subtopic guide, else topic guide, else the option. */
  function DetailText(option: TopicOption, subtopicTitle: string,
                      sub: Option<(TopicGuide, SubtopicGuide)>, guide: Option<TopicGuide>): string {
    if sub.Some? then
      Join(GuideLines(option.materia, sub.value.0, Some(sub.value.1)), "\n") + "\n\n" + AnotherTopicHint
    else
      match guide
      case Some(t) =>
        Join(GuideLines(option.materia, t, None), "\n") + Highlight(option, subtopicTitle) + "\n\n" + AnotherTopicHint
      case None => Join(FallbackLines(option, subtopicTitle), "\n")
  }

  /** What `formatTopicDetailResponse` returns; `subtopicTitle` is "" when absent. */
  function TopicDetail(kb: KnowledgeMap, option: TopicOption, subtopicTitle: string): string {
    DetailText(option, subtopicTitle, DetailLookup(kb, option, subtopicTitle), TopicStudyGuide(kb, option.materia, option.topic))
  }

  predicate EndsWith(s: string, suffix: string) {
    |suffix| <= |s| && s[|s| - |suffix|..] == suffix
  }

  lemma {:induction false} JoinHead(parts: seq<string>, sep: string)
    requires parts != []
    ensures StartsWith(Join(parts, sep), parts[0])
  {
    if |parts| > 1 {
      var j := Join(parts, sep);
      assert j == parts[0] + (sep + Join(parts[1..], sep));
      assert j[..|parts[0]|] == parts[0];
    }
  }

  lemma EndsWithConcat(a: string, b: string)
    ensures EndsWith(a + b, b)
  {
    assert (a + b)[|a + b| - |b|..] == b;
  }

  /** Whichever way the reply is built, it closes by inviting another choice. */
  lemma TopicDetailEndsWithHint(kb: KnowledgeMap, option: TopicOption, subtopicTitle: string)
    ensures EndsWith(TopicDetail(kb, option, subtopicTitle), AnotherTopicHint)
  {
    DetailTextEndsWithHint(option, subtopicTitle, DetailLookup(kb, option, subtopicTitle),
                           TopicStudyGuide(kb, option.materia, option.topic));
  }

  lemma DetailTextEndsWithHint(option: TopicOption, subtopicTitle: string,
                               sub: Option<(TopicGuide, SubtopicGuide)>, guide: Option<TopicGuide>)
    ensures EndsWith(DetailText(option, subtopicTitle, sub, guide), AnotherTopicHint)
  {
    if sub.Some? {
      EndsWithConcat(Join(GuideLines(option.materia, sub.value.0, Some(sub.value.1)), "\n") + "\n\n", AnotherTopicHint);
    } else if guide.Some? {
      EndsWithConcat(Join(GuideLines(option.materia, guide.value, None), "\n") + Highlight(option, subtopicTitle) + "\n\n",
                     AnotherTopicHint);
    } else {
      var lines := FallbackLines(option, subtopicTitle);
      JoinSnoc(lines[..|lines| - 1], AnotherTopicHint, "\n");
      assert lines == lines[..|lines| - 1] + [AnotherTopicHint];
      EndsWithConcat(Join(lines[..|lines| - 1], "\n") + "\n", AnotherTopicHint);
    }
  }

  /**
   * The reply opens with "materia - name": the guide's subtopic when the
   * knowledge base has it, else the guide's topic, else the option's topic.
   */
  lemma TopicDetailOpening(kb: KnowledgeMap, option: TopicOption, subtopicTitle: string)
    ensures var sub := DetailLookup(kb, option, subtopicTitle);
      var guide := TopicStudyGuide(kb, option.materia, option.topic);
      var name := if sub.Some? then sub.value.1.name else if guide.Some? then guide.value.name else option.topic;
      StartsWith(TopicDetail(kb, option, subtopicTitle), option.materia + " - " + name)
  {
    DetailTextOpening(option, subtopicTitle, DetailLookup(kb, option, subtopicTitle),
                      TopicStudyGuide(kb, option.materia, option.topic));
  }

  lemma DetailTextOpening(option: TopicOption, subtopicTitle: string,
                          sub: Option<(TopicGuide, SubtopicGuide)>, guide: Option<TopicGuide>)
    ensures var name := if sub.Some? then sub.value.1.name else if guide.Some? then guide.value.name else option.topic;
      StartsWith(DetailText(option, subtopicTitle, sub, guide), option.materia + " - " + name)
  {
    if sub.Some? {
      GuideOpening(option.materia, sub.value.0, Some(sub.value.1), "\n\n" + AnotherTopicHint);
    } else if guide.Some? {
      GuideOpening(option.materia, guide.value, None, Highlight(option, subtopicTitle) + "\n\n" + AnotherTopicHint);
    } else {
      FallbackOpeningLine(option, subtopicTitle);
    }
  }

  /** The fallback reply opens with "materia - topic". */
  lemma FallbackOpeningLine(option: TopicOption, subtopicTitle: string)
    ensures StartsWith(Join(FallbackLines(option, subtopicTitle), "\n"), option.materia + " - " + option.topic)
  {
    assert FallbackLines(option, subtopicTitle)[0] == option.materia + " - " + option.topic;
    JoinHead(FallbackLines(option, subtopicTitle), "\n");
  }

  /** A study guide reply, whatever follows it, opens with "materia - name". */
  lemma GuideOpening(materia: string, topic: TopicGuide, subtopic: Option<SubtopicGuide>, tail: string)
    ensures var name := if subtopic.Some? then subtopic.value.name else topic.name;
      StartsWith(Join(GuideLines(materia, topic, subtopic), "\n") + tail, materia + " - " + name)
  {
    var lines := GuideLines(materia, topic, subtopic);
    GuideShape(materia, topic, subtopic);
    JoinHead(lines, "\n");
    StartsWithConcat(Join(lines, "\n"), lines[0], tail);
  }

  lemma StartsWithConcat(s: string, p: string, t: string)
    requires StartsWith(s, p)
    ensures StartsWith(s + t, p)
  {
    assert (s + t)[..|p|] == s[..|p|];
  }

  /** The fallback searches for the chosen subtopic, or for the topic when none was chosen. */
  lemma FallbackLinks(option: TopicOption, subtopicTitle: string)
    ensures var lines := FallbackLines(option, subtopicTitle);
      lines[|lines| - 3] == GenerateStudyLinks(if subtopicTitle != "" then subtopicTitle else option.topic, option.materia)
  {
  }

  /** The `forEach` that pushes one item per subtopic. */
  method PushSubtopicItems(lines0: seq<string>, subs: seq<SelectionSubtopic>) returns (lines: seq<string>)
    ensures lines == lines0 + SubtopicItems(subs)
  {
    lines := lines0;
    for i := 0 to |subs|
      invariant lines == lines0 + SubtopicItems(subs[..i])
    {
      assert SubtopicItems(subs[..i + 1]) == SubtopicItems(subs[..i]) + [SubtopicItem(subs[i])];
      var item := subs[i];
      if item.description != "" {
        lines := lines + ["- " + item.title + ": " + item.description];
      } else {
        lines := lines + ["- " + item.title];
      }
    }
    assert subs[..|subs|] == subs;
  }

  /** The lines `formatTopicDetailResponse` pushes when the knowledge base has no guide. */
  method FallbackReplyLines(option: TopicOption, subtopicTitle: string) returns (lines: seq<string>)
    ensures lines == FallbackLines(option, subtopicTitle)
  {
    lines := [option.materia + " - " + option.topic];
    if option.topicDescription != "" {
      lines := lines + ["Resumen: " + option.topicDescription];
    }
    assert lines == FallbackOpening(option);
    if option.subtopics != [] {
      lines := lines + [""];
      lines := lines + [SubtopicsAvailable];
      lines := PushSubtopicItems(lines, option.subtopics);
      assert lines == FallbackOpening(option) + (["", SubtopicsAvailable] + SubtopicItems(option.subtopics));
    }
    assert lines == FallbackOpening(option) + FallbackListing(option);
    var links := GenerateStudyLinks(OrDefault(subtopicTitle, option.topic), option.materia);
    lines := PushClosing(lines, links);
  }

  /** The closing pushes: the study links and the hint, each after a blank line. */
  method PushClosing(lines0: seq<string>, links: string) returns (lines: seq<string>)
    ensures lines == lines0 + ["", links, "", AnotherTopicHint]
  {
    lines := lines0 + [""];
    lines := lines + [links];
    lines := lines + [""];
    lines := lines + [AnotherTopicHint];
  }


  /** `formatTopicDetailResponse`, building the fallback lines with `push` and `forEach`. */
  method FormatTopicDetailResponse(kb: KnowledgeMap, option: TopicOption, subtopicTitle: string) returns (r: string)
    ensures r == TopicDetail(kb, option, subtopicTitle)
  {
    var materia := option.materia;
    if subtopicTitle != "" {
      var detail := SubtopicStudyGuide(kb, materia, option.topic, subtopicTitle);
      if detail.Some? {
        var message := FormatStudyGuideResponse(materia, detail.value.0, Some(detail.value.1));
        return message + "\n\n" + AnotherTopicHint;
      }
    }
    var topicGuide := TopicStudyGuide(kb, materia, option.topic);
    if topicGuide.Some? {
      var message := FormatStudyGuideResponse(materia, topicGuide.value, None);
      message := message + Highlight(option, subtopicTitle);
      return message + "\n\n" + AnotherTopicHint;
    }
    var lines := FallbackReplyLines(option, subtopicTitle);
    r := Join(lines, "\n");
  }

  // ---------------------------------------------------------------------
  // The imperative resolution
  // ---------------------------------------------------------------------

  /** The reply text of a resolution, null when unresolved. */
  function ReplyOf(kb: KnowledgeMap, res: Resolution): Option<string> {
    match res
    case Unresolved => None
    case Remind(text) => Some(text)
    case Chosen(sel) => Some(TopicDetail(kb, sel.option, sel.subtopic))
  }

  /** The inner loop over an option's subtopics. */
  method FindNamedSubtopic(norm: string -> string, nm: string, subs: seq<SelectionSubtopic>) returns (r: Option<SelectionSubtopic>)
    ensures r == SubtopicHit(norm, nm, subs, true)
  {
    var j := 0;
    r := None;
    while j < |subs| && r.None?
      invariant 0 <= j <= |subs|
      invariant r.None? ==> forall l :: 0 <= l < j ==> !Hit(norm, nm, subs[l].title, true)
      invariant r.Some? ==> 0 < j && r == Some(subs[j - 1]) && Hit(norm, nm, subs[j - 1].title, true)
                            && forall l :: 0 <= l < j - 1 ==> !Hit(norm, nm, subs[l].title, true)
    {
      var title := norm(subs[j].title);
      if title != "" && Contains(nm, title) {
        r := Some(subs[j]);
      }
      j := j + 1;
    }
    if r.Some? {
      FindFirstAt(subs, (s: SelectionSubtopic) => Hit(norm, nm, s.title, true), j - 1);
    }
  }

  /** One option: its topic title first, then its subtopic titles. */
  method MatchOption(norm: string -> string, nm: string, o: TopicOption) returns (r: Option<Selected>)
    ensures r == OptionHit(norm, nm, o, true)
  {
    var topic := norm(o.topic);
    if topic != "" && Contains(nm, topic) {
      return Some(Selected(o, ""));
    }
    var s := FindNamedSubtopic(norm, nm, o.subtopics);
    r := if s.Some? then Some(Selected(o, s.value.title)) else None;
  }

  /** The outer loop over the options, by name. */
  method FindNamedOption(norm: string -> string, nm: string, options: seq<TopicOption>) returns (r: Option<Selected>)
    ensures r == ScanOptions(norm, nm, options, true)
  {
    var i := 0;
    r := None;
    while i < |options| && r.None?
      invariant 0 <= i <= |options|
      invariant r.None? ==> forall l :: 0 <= l < i ==> OptionHit(norm, nm, options[l], true).None?
      invariant r.Some? ==> 0 < i && r == OptionHit(norm, nm, options[i - 1], true)
                            && forall l :: 0 <= l < i - 1 ==> OptionHit(norm, nm, options[l], true).None?
    {
      r := MatchOption(norm, nm, options[i]);
      i := i + 1;
    }
    if r.Some? {
      ScanOptionsAt(norm, nm, options, true, i - 1);
    }
  }

  /** `tryHandleTopicSelection`; the pending state is passed in and nothing is written back. */
  method TryHandleTopicSelection(norm: string -> string, kb: KnowledgeMap, pending: Option<SelectionState>, message: string) returns (r: Option<string>)
    ensures r == ReplyOf(kb, Resolve(norm, pending, message))
  {
    if pending.None? || pending.value.options == [] {
      return None;
    }
    var state := pending.value;
    var nm := norm(message);
    var selected := ByNumber(nm, state.options);
    var subtopic := "";
    if selected.None? {
      var byName := FindNamedOption(norm, nm, state.options);
      if byName.Some? {
        selected := Some(byName.value.option);
        subtopic := byName.value.subtopic;
      }
    }
    if selected.None? {
      if ContainsAny(nm, SelectionKeywords) {
        return Some(state.prompt + "\n\n" + ReminderLine);
      }
      return None;
    }
    var text := FormatTopicDetailResponse(kb, selected.value, subtopic);
    r := Some(text);
  }
}
