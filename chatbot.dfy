/**
 * The stateful chatbot engine of geminiService.ts (`class ChatbotService`):
 * the conversation context the replies read and write, the chat-history
 * buffer sent to the completion service, the academic dispatch and the
 * routing of `sendMessage`.
 *
 * The replies are modelled by what they report (a `Reply`), not by their
 * wording; the texts built by the topic-selection exchange are kept whole.
 */
module Chatbot {
  import opened Text
  import opened Records
  import opened Intents
  import opened Resolver
  import opened Grades
  import opened Knowledge
  import opened Selection
  import opened Aggregation

  // ---------------------------------------------------------------------
  // The conversation context
  // ---------------------------------------------------------------------

  /** `lastQueryType`: 'calificaciones', 'materias' or 'mejora'. */
  datatype QueryType = Calificaciones | Materias | Mejora

  /** `pendingAction`: 'roadmap' or 'topic_detail'. */
  datatype PendingAction = RoadmapAction | TopicDetailAction

  /** `ConversationContext`; `None` for null. */
  datatype ConversationContext = ConversationContext(
    lastMentionedMateria: Option<string>,
    lastQueryType: Option<QueryType>,
    pendingAction: Option<PendingAction>,
    pendingTopicSelection: Option<SelectionState>)

  const EmptyContext := ConversationContext(None, None, None, None)

  /** Words that leave a roadmap offer pending. */
  const HelpWords: seq<string> := ["mejorar", "ayuda", "consejo"]

  /** The first enrolled subject whose lower-cased name occurs in the lower-cased message. */
  function MentionedSubject(lower: string, es: seq<Enrollment>): (r: Option<string>)
    ensures r.Some? ==> exists i :: 0 <= i < |es| && es[i].subject == r.value && r.value != ""
                                    && Contains(lower, LowerCase(r.value))
                                    && forall j :: 0 <= j < i ==> !(es[j].subject != "" && Contains(lower, LowerCase(es[j].subject)))
    ensures r.None? <==> forall i :: 0 <= i < |es| ==> !(es[i].subject != "" && Contains(lower, LowerCase(es[i].subject)))
  {
    match FindFirst(es, (e: Enrollment) => e.subject != "" && Contains(lower, LowerCase(e.subject)))
    case Some(e) => Some(e.subject)
    case None => None
  }

  /** The kind of question, by priority grades > subjects > improvement; `None` keeps the old one. */
  function QueryTypeOf(lower: string): Option<QueryType> {
    if IsGradeRelated(lower) then Some(Calificaciones)
    else if IsSubjectRelated(lower) then Some(Materias)
    else if IsRoadmapQuery(lower) then Some(Mejora)
    else None
  }

  /**
   * `updateConversationContext`: each of the three fields is overwritten
   * when the message gives a new value and kept otherwise; the pending
   * selection is never touched.
   */
  function UpdatedContext(c: ConversationContext, message: string, es: seq<Enrollment>): (r: ConversationContext)
    ensures r.pendingTopicSelection == c.pendingTopicSelection
    ensures c.lastMentionedMateria.Some? ==> r.lastMentionedMateria.Some?
    ensures c.lastQueryType.Some? ==> r.lastQueryType.Some?
    ensures c.pendingAction.Some? ==> r.pendingAction.Some?
    ensures r.lastMentionedMateria != c.lastMentionedMateria ==>
      exists i :: 0 <= i < |es| && Some(es[i].subject) == r.lastMentionedMateria
                  && Contains(LowerCase(message), LowerCase(es[i].subject))
    ensures r.pendingAction != c.pendingAction ==>
      r.pendingAction == Some(RoadmapAction) && ContainsAny(LowerCase(message), HelpWords)
    ensures MentionedSubject(LowerCase(message), es).Some? ==> r.lastMentionedMateria == MentionedSubject(LowerCase(message), es)
    ensures MentionedSubject(LowerCase(message), es).None? ==> r.lastMentionedMateria == c.lastMentionedMateria
    ensures IsGradeRelated(message) ==> r.lastQueryType == Some(Calificaciones)
    ensures !IsGradeRelated(message) && IsSubjectRelated(message) ==> r.lastQueryType == Some(Materias)
    ensures !IsGradeRelated(message) && !IsSubjectRelated(message) && IsRoadmapQuery(message) ==> r.lastQueryType == Some(Mejora)
    ensures !IsGradeRelated(message) && !IsSubjectRelated(message) && !IsRoadmapQuery(message) ==> r.lastQueryType == c.lastQueryType
    ensures ContainsAny(LowerCase(message), HelpWords) ==> r.pendingAction == Some(RoadmapAction)
  {
    LowerCaseInvariant(message);
    var lower := LowerCase(message);
    var mentioned := MentionedSubject(lower, es);
    var kind := QueryTypeOf(lower);
    ConversationContext(
      if mentioned.Some? then mentioned else c.lastMentionedMateria,
      if kind.Some? then kind else c.lastQueryType,
      if ContainsAny(lower, HelpWords) then Some(RoadmapAction) else c.pendingAction,
      c.pendingTopicSelection)
  }

  // ---------------------------------------------------------------------
  // What a reply reports
  // ---------------------------------------------------------------------

  /** The fixed notices. */
  datatype Notice =
    | NoEnrollments       // no enrolled subjects for the user
    | SyllabusUnreachable // the syllabus was asked for and could not be fetched
    | NoSyllabusYet       // no syllabus is associated with the subjects
    | NoSyllabusFound     // generateSyllabusOverview without syllabus data
    | NoTopicsListed      // the syllabus lists no titled topic

  /** The content of an academic reply. */
  datatype Reply =
    | NoticeReply(notice: Notice)
    | TextReply(text: string)                   // a selection prompt, a reminder or a topic detail
    | SpecificReply(query: SpecificQuery)       // generateSpecificResponse
    | AverageReply(average: Option<real>)       // generateAverageResponse
    | BestReply(best: Option<Enrollment>)       // generateBestGradeResponse
    | WorstReply(worst: Option<Enrollment>)     // generateWorstGradeResponse
    | AllPassingReply                           // generateRoadmapResponse without low grades
    | RoadmapReply(low: seq<Enrollment>, plans: seq<SubjectRoadmap>, prompt: Option<string>)
    | GradesReply(graded: seq<Enrollment>, average: Option<real>, low: seq<Enrollment>)
    | SubjectsReply(enrollments: seq<Enrollment>)
    | ClassroomReply(enrollments: seq<Enrollment>)
    | GeneralReply(groups: seq<Group>, graded: seq<Enrollment>, average: Option<real>)

  // ---------------------------------------------------------------------
  // generateSyllabusOverview
  // ---------------------------------------------------------------------

  /** `syllabusData.filter(item => areStringsEquivalent(item.materiaNombre, name))` */
  function EquivalentEntries(syllabus: seq<SubjectSyllabus>, name: string): (r: seq<SubjectSyllabus>)
    ensures |r| <= |syllabus|
    ensures forall x :: x in r <==> x in syllabus && Equivalent(x.subject, name)
  {
    if syllabus == [] then []
    else (if Equivalent(syllabus[0].subject, name) then [syllabus[0]] else []) + EquivalentEntries(syllabus[1..], name)
  }

  /**
   * The subjects the overview is about: those equivalent to the subject the
   * message refers to, or else the only subject when there is one.
   */
  function OverviewTargets(c: ConversationContext, es: seq<Enrollment>, message: string, syllabus: seq<SubjectSyllabus>)
    : (r: seq<SubjectSyllabus>)
    ensures forall x :: x in r ==> x in syllabus
    ensures |syllabus| == 1 ==> |r| == 1
    ensures var ref := FindMateriaFromMessage(message, es, c.lastMentionedMateria);
      forall x :: x in r ==> (ref.Some? && Equivalent(x.subject, ref.value)) || (|syllabus| == 1 && x == syllabus[0])
    ensures var ref := FindMateriaFromMessage(message, es, c.lastMentionedMateria);
      ref.Some? ==> forall x :: x in syllabus && Equivalent(x.subject, ref.value) ==> x in r
    ensures var ref := FindMateriaFromMessage(message, es, c.lastMentionedMateria);
      r == [] <==> |syllabus| != 1 && !(ref.Some? && exists x :: x in syllabus && Equivalent(x.subject, ref.value))
  {
    var reference := FindMateriaFromMessage(message, es, c.lastMentionedMateria);
    var targets := if reference.Some? then EquivalentEntries(syllabus, reference.value) else [];
    assert forall x :: x in targets <==> reference.Some? && x in syllabus && Equivalent(x.subject, reference.value);
    assert targets == [] <==> !(reference.Some? && exists x :: x in syllabus && Equivalent(x.subject, reference.value)) by {
      if targets != [] {
        assert targets[0] in targets;
      }
    }
    if targets == [] && |syllabus| == 1 then [syllabus[0]]
    else
      assert |syllabus| == 1 ==> targets == [syllabus[0]] by {
        if |syllabus| == 1 && targets != [] {
          assert forall x :: x in targets ==> x == syllabus[0];
          assert targets[0] == syllabus[0];
        }
      }
      targets
  }

  /** `createOptionFromTema` for each topic of the subject. */
  function TopicOptionsOf(m: SubjectSyllabus): (r: seq<TopicOption>)
    ensures |r| == |m.topics| && forall i :: 0 <= i < |r| ==> r[i] == OptionFromTopic(m.subject, m.topics[i])
  {
    seq(|m.topics|, i requires 0 <= i < |m.topics| => OptionFromTopic(m.subject, m.topics[i]))
  }

  /** A topic or subtopic of the single target named in the message, scanned topic by topic. */
  function DirectHit(targets: seq<SubjectSyllabus>, message: string): Option<Selected> {
    if |targets| == 1 then ScanOptions(NormalizeText, NormalizeText(message), TopicOptionsOf(targets[0]), true)
    else None
  }

  /** The context once the selection `p` is pending. */
  function Offered(c: ConversationContext, p: Preparation): ConversationContext {
    c.(pendingTopicSelection := Some(p.state), pendingAction := Some(TopicDetailAction))
  }

  /**
   * `generateSyllabusOverview`: a topic named directly gets its detail;
   * otherwise the topics of the single target, or of all the targets, or
   * of the whole syllabus, are offered for selection.
   */
  function Overview(kb: KnowledgeMap, c: ConversationContext, es: seq<Enrollment>, message: string,
                    syllabus: seq<SubjectSyllabus>): (r: (Reply, ConversationContext))
    ensures r.1.pendingTopicSelection != c.pendingTopicSelection ==>
      r.1.pendingTopicSelection.Some? && r.1.pendingTopicSelection.value.source == SyllabusSource
    ensures r.1.lastQueryType == c.lastQueryType
  {
    if syllabus == [] then (NoticeReply(NoSyllabusFound), c)
    else
      var targets := OverviewTargets(c, es, message, syllabus);
      var direct := DirectHit(targets, message);
      if direct.Some? then (TextReply(TopicDetail(kb, direct.value.option, direct.value.subtopic)), c)
      else
        var single := if |targets| == 1 then TopicSelectionOf([targets[0]], SyllabusSource) else None;
        if single.Some? then
          (TextReply(single.value.message), Offered(c, single.value).(lastMentionedMateria := Some(targets[0].subject)))
        else
          match TopicSelectionOf(if targets != [] then targets else syllabus, SyllabusSource)
          case Some(p) => (TextReply(p.message), Offered(c, p))
          case None => (NoticeReply(NoTopicsListed), c)
  }

  /**
   * What the overview computes. Without a syllabus it says so. A topic or
   * subtopic of the single target named in the message is answered with its
   * detail, and the context is kept. Otherwise the topics of the targets
   * (of the whole syllabus when there are none) are offered, awaiting a
   * topic detail; a single target also becomes the subject last mentioned.
   */
  lemma OverviewOutcomes(kb: KnowledgeMap, c: ConversationContext, es: seq<Enrollment>, message: string,
                         syllabus: seq<SubjectSyllabus>)
    ensures var r := Overview(kb, c, es, message, syllabus);
      r.0 == NoticeReply(NoSyllabusFound) <==> syllabus == []
    ensures var r, targets := Overview(kb, c, es, message, syllabus), OverviewTargets(c, es, message, syllabus);
      syllabus != [] && DirectHit(targets, message).Some? ==>
        && |targets| == 1
        && DirectHit(targets, message).value.option in TopicOptionsOf(targets[0])
        && r == (TextReply(TopicDetail(kb, DirectHit(targets, message).value.option,
                                       DirectHit(targets, message).value.subtopic)), c)
    ensures var r, targets := Overview(kb, c, es, message, syllabus), OverviewTargets(c, es, message, syllabus);
      var p := TopicSelectionOf(if targets != [] then targets else syllabus, SyllabusSource);
      syllabus != [] && DirectHit(targets, message).None? ==>
        && (p.None? ==> r == (NoticeReply(NoTopicsListed), c))
        && (p.Some? ==>
              && r.0 == TextReply(p.value.message)
              && r.1.pendingTopicSelection == Some(p.value.state)
              && r.1.pendingAction == Some(TopicDetailAction)
              && r.1.lastQueryType == c.lastQueryType
              && r.1.lastMentionedMateria == if |targets| == 1 then Some(targets[0].subject) else c.lastMentionedMateria)
  {
    if syllabus != [] {
      var targets := OverviewTargets(c, es, message, syllabus);
      var direct := DirectHit(targets, message);
      if direct.Some? {
        assert |targets| == 1;
        ScanOptionsSound(NormalizeText, NormalizeText(message), TopicOptionsOf(targets[0]));
      } else if |targets| == 1 {
        assert [targets[0]] == targets;
      }
    }
  }

  // ---------------------------------------------------------------------
  // generateRoadmapResponse
  // ---------------------------------------------------------------------

  /** The improvement plan of each low-graded enrollment, in order. */
  function Plans(low: seq<Enrollment>): (r: seq<SubjectRoadmap>)
    requires AllGraded(low)
    ensures |r| == |low|
    ensures forall i :: 0 <= i < |low| ==> r[i] == SubjectRoadmapOf(OrDefault(low[i].subject, "esta materia"), low[i].grade.value)
  {
    if low == [] then []
    else [SubjectRoadmapOf(OrDefault(low[0].subject, "esta materia"), low[0].grade.value)] + Plans(low[1..])
  }

  /** Some subject of `acc` is the same as `name` under `norm`. */
  predicate AnySame(norm: string -> string, acc: seq<SubjectSyllabus>, name: string) {
    exists k :: 0 <= k < |acc| && Same(norm, acc[k].subject, name)
  }

  /** The syllabus entry for one subject name: the first equivalent one. */
  function EntryFor(norm: string -> string, syllabus: seq<SubjectSyllabus>, name: string): Option<SubjectSyllabus> {
    FindFirst(syllabus, (item: SubjectSyllabus) => Same(norm, item.subject, name))
  }

  /**
   * The subjects with topics among the first `n` low-graded enrollments:
   * each enrollment's first equivalent syllabus entry, when it has topics
   * and no equivalent subject was taken before.
   */
  function RoadmapSubjects(norm: string -> string, low: seq<Enrollment>, syllabus: seq<SubjectSyllabus>, n: nat)
    : seq<SubjectSyllabus>
    requires n <= |low|
    decreases n
  {
    if n == 0 then [] else Admit(norm, RoadmapSubjects(norm, low, syllabus, n - 1), syllabus, low[n - 1].subject)
  }

  /** One step of the collection: the entry for `name`, when it has topics and is not taken yet. */
  function Admit(norm: string -> string, acc: seq<SubjectSyllabus>, syllabus: seq<SubjectSyllabus>, name: string)
    : seq<SubjectSyllabus>
  {
    if name == "" then acc
    else
      match EntryFor(norm, syllabus, name)
      case None => acc
      case Some(m) => if |m.topics| > 0 && !AnySame(norm, acc, m.subject) then acc + [m] else acc
  }

  /**
   * `generateRoadmapResponse`: the plans of the low grades, then the topics
   * of their subjects offered for selection; with nothing to offer, a
   * selection that a roadmap left pending is withdrawn, any other is kept.
   */
  function Roadmap(c: ConversationContext, es: seq<Enrollment>, syllabus: seq<SubjectSyllabus>)
    : (r: (Reply, ConversationContext))
    ensures r.1.lastQueryType == c.lastQueryType && r.1.lastMentionedMateria == c.lastMentionedMateria
    ensures r.1.pendingTopicSelection != c.pendingTopicSelection ==>
      || (r.1.pendingTopicSelection.Some? && r.1.pendingTopicSelection.value.source == RoadmapSource)
      || (r.1.pendingTopicSelection.None? && c.pendingTopicSelection.value.source == RoadmapSource)
  {
    var low := LowGrades(es);
    if low == [] then (AllPassingReply, c)
    else
      var plans := Plans(low);
      var subjects := RoadmapSubjects(NormalizeText, low, syllabus, |low|);
      if subjects != [] then
        match TopicSelectionOf(subjects, RoadmapSource)
        case Some(p) => (RoadmapReply(low, plans, Some(p.message)), Offered(c, p))
        case None => (RoadmapReply(low, plans, None), c)
      else if c.pendingTopicSelection.Some? && c.pendingTopicSelection.value.source == RoadmapSource then
        (RoadmapReply(low, plans, None), c.(pendingTopicSelection := None))
      else (RoadmapReply(low, plans, None), c)
  }

  /**
   * What the roadmap computes. Without low grades it reports that all
   * subjects pass and changes nothing. Otherwise it reports the low grades
   * and their plans; the topics of their subjects with syllabus entries are
   * offered and left pending, awaiting a topic detail. When no subject has
   * topics, a selection that a roadmap left pending is withdrawn.
   */
  lemma RoadmapOutcomes(c: ConversationContext, es: seq<Enrollment>, syllabus: seq<SubjectSyllabus>)
    ensures var r, low := Roadmap(c, es, syllabus), LowGrades(es);
      low == [] <==> r == (AllPassingReply, c)
    ensures var r, low := Roadmap(c, es, syllabus), LowGrades(es);
      low != [] ==> r.0.RoadmapReply? && r.0.low == low && r.0.plans == Plans(low)
    ensures var r, low := Roadmap(c, es, syllabus), LowGrades(es);
      var p := TopicSelectionOf(RoadmapSubjects(NormalizeText, low, syllabus, |low|), RoadmapSource);
      low != [] && p.Some? ==>
        && r.0.prompt == Some(p.value.message)
        && r.1 == c.(pendingTopicSelection := Some(p.value.state), pendingAction := Some(TopicDetailAction))
    ensures var r, low := Roadmap(c, es, syllabus), LowGrades(es);
      var subjects := RoadmapSubjects(NormalizeText, low, syllabus, |low|);
      low != [] && TopicSelectionOf(subjects, RoadmapSource).None? ==>
        && r.0.prompt.None?
        && r.1.(pendingTopicSelection := c.pendingTopicSelection) == c
        && (subjects != [] ==> r.1 == c)
        && (subjects == [] ==>
              (r.1.pendingTopicSelection.None? <==>
                 c.pendingTopicSelection.None? || c.pendingTopicSelection.value.source == RoadmapSource))
  {
  }

  // ---------------------------------------------------------------------
  // generateAcademicResponse
  // ---------------------------------------------------------------------

  /** The branches of `generateAcademicResponse`, in priority order. */
  datatype Branch =
    | EmptyBranch | SelectionBranch | SpecificBranch | SyllabusBranch | AverageBranch | BestBranch
    | WorstBranch | RoadmapBranch | GradeBranch | SubjectBranch | ClassroomBranch | GeneralBranch

  /** One academic reply: the branch taken, what it reports and the context afterwards. */
  datatype Turn = Turn(branch: Branch, reply: Reply, context: ConversationContext)

  /** The reply of the pending-selection handler, null when nothing is pending or it declines. */
  function SelectionAnswer(kb: KnowledgeMap, c: ConversationContext, message: string): Option<string> {
    if c.pendingTopicSelection.Some? then ReplyOf(kb, Resolve(NormalizeText, c.pendingTopicSelection, message))
    else None
  }

  /** The question is about one subject that `detectSpecificQuery` named. */
  predicate IsSpecific(q: SpecificQuery) {
    q.Query? && q.materia != ""
  }

  /** The intent tests `generateAcademicResponse` evaluates, each once and up front. */
  datatype Flags = Flags(
    syllabus: bool, grade: bool, average: bool, subject: bool, classroom: bool, section: bool,
    best: bool, worst: bool, roadmap: bool, improvement: bool)

  /** The ten intent predicates applied to the message. */
  function FlagsOf(message: string): Flags {
    Flags(IsSyllabusQuery(message), IsGradeRelated(message), IsAverageQuery(message), IsSubjectRelated(message),
          IsClassroomRelated(message), IsSectionRelated(message), IsBestGradeQuery(message),
          IsWorstGradeQuery(message), IsRoadmapQuery(message), IsImprovementQuery(message))
  }

  /** The priority table of `generateAcademicResponse`: the first guard that holds picks the branch. */
  function AcademicRules(es: seq<Enrollment>, handled: bool, q: SpecificQuery, f: Flags): seq<(bool, Branch)> {
    [(es == [], EmptyBranch),
     (handled, SelectionBranch),
     (IsSpecific(q), SpecificBranch),
     (f.syllabus, SyllabusBranch),
     (f.average, AverageBranch),
     (f.best, BestBranch),
     (f.worst, WorstBranch),
     (f.roadmap || f.improvement, RoadmapBranch),
     (f.grade, GradeBranch),
     (f.subject, SubjectBranch),
     (f.classroom || f.section, ClassroomBranch)]
  }

  /** The if-chain of `generateAcademicResponse`. */
  function AcademicBranch(es: seq<Enrollment>, handled: bool, q: SpecificQuery, f: Flags): Branch {
    if es == [] then EmptyBranch
    else if handled then SelectionBranch
    else if IsSpecific(q) then SpecificBranch
    else if f.syllabus then SyllabusBranch
    else if f.average then AverageBranch
    else if f.best then BestBranch
    else if f.worst then WorstBranch
    else if f.roadmap || f.improvement then RoadmapBranch
    else if f.grade then GradeBranch
    else if f.subject then SubjectBranch
    else if f.classroom || f.section then ClassroomBranch
    else GeneralBranch
  }

  /** The if-chain is the first hit of the priority table. */
  lemma AcademicDispatch(es: seq<Enrollment>, handled: bool, q: SpecificQuery, f: Flags)
    ensures AcademicBranch(es, handled, q, f) == FirstHit(AcademicRules(es, handled, q, f), GeneralBranch)
  {
    var rules := AcademicRules(es, handled, q, f);
    if es == [] {
      FirstHitAt(rules, GeneralBranch, 0);
    } else if handled {
      FirstHitAt(rules, GeneralBranch, 1);
    } else if IsSpecific(q) {
      FirstHitAt(rules, GeneralBranch, 2);
    } else if f.syllabus {
      FirstHitAt(rules, GeneralBranch, 3);
    } else if f.average {
      FirstHitAt(rules, GeneralBranch, 4);
    } else if f.best {
      FirstHitAt(rules, GeneralBranch, 5);
    } else if f.worst {
      FirstHitAt(rules, GeneralBranch, 6);
    } else if f.roadmap || f.improvement {
      FirstHitAt(rules, GeneralBranch, 7);
    } else if f.grade {
      FirstHitAt(rules, GeneralBranch, 8);
    } else if f.subject {
      FirstHitAt(rules, GeneralBranch, 9);
    } else if f.classroom || f.section {
      FirstHitAt(rules, GeneralBranch, 10);
    } else {
      FirstHitNone(rules, GeneralBranch);
    }
  }

  /** The reply of a branch taken after the context update. */
  function LateReply(kb: KnowledgeMap, c: ConversationContext, es: seq<Enrollment>, message: string, b: Branch,
                     syllabus: seq<SubjectSyllabus>, requested: bool): (Reply, ConversationContext)
  {
    match b
    case SyllabusBranch =>
      if syllabus == [] then (NoticeReply(if requested then SyllabusUnreachable else NoSyllabusYet), c)
      else Overview(kb, c, es, message, syllabus)
    case AverageBranch => (AverageReply(Average(es)), c)
    case BestBranch => (BestReply(BestGrade(es)), c)
    case WorstBranch => (WorstReply(WorstGrade(es)), c)
    case RoadmapBranch => Roadmap(c, es, syllabus)
    case GradeBranch => (GradesReply(Graded(es), Average(es), LowGrades(es)), c)
    case SubjectBranch => (SubjectsReply(es), c)
    case ClassroomBranch => (ClassroomReply(es), c)
    case _ => (GeneralReply(CareerGroups(es), Graded(es), Average(es)), c)
  }

  /**
   * `generateAcademicResponse` with the intent tests `f` of the message:
   * no enrollments, then the pending selection, then a specific question,
   * and only then the context update and the keyword branches.
   */
  function Academic(kb: KnowledgeMap, c: ConversationContext, es: seq<Enrollment>, message: string, f: Flags,
                    syllabus: seq<SubjectSyllabus>, requested: bool, captures: Captures): (t: Turn)
    ensures t.branch == AcademicBranch(es, SelectionAnswer(kb, c, message).Some?, DetectSpecificQuery(message, es, captures), f)
    ensures t.branch == EmptyBranch || t.branch == SelectionBranch || t.branch == SpecificBranch ==> t.context == c
  {
    var answer := SelectionAnswer(kb, c, message);
    var q := DetectSpecificQuery(message, es, captures);
    var b := AcademicBranch(es, answer.Some?, q, f);
    match b
    case EmptyBranch => Turn(b, NoticeReply(NoEnrollments), c)
    case SelectionBranch => Turn(b, TextReply(answer.value), c)
    case SpecificBranch => Turn(b, SpecificReply(q), c)
    case _ => var r := LateReply(kb, UpdatedContext(c, message, es), es, message, b, syllabus, requested); Turn(b, r.0, r.1)
  }

  /**
   * A successful selection answers from the pending options and leaves the
   * whole context, the pending selection included, as it was.
   */
  lemma SelectionKeepsContext(kb: KnowledgeMap, c: ConversationContext, es: seq<Enrollment>, message: string, f: Flags,
                              syllabus: seq<SubjectSyllabus>, requested: bool, captures: Captures)
    requires es != [] && Resolve(NormalizeText, c.pendingTopicSelection, message).Chosen?
    ensures c.pendingTopicSelection.Some?
    ensures Resolve(NormalizeText, c.pendingTopicSelection, message).selected.option in c.pendingTopicSelection.value.options
    ensures Academic(kb, c, es, message, f, syllabus, requested, captures)
         == Turn(SelectionBranch,
                 TextReply(TopicDetail(kb, Resolve(NormalizeText, c.pendingTopicSelection, message).selected.option,
                                       Resolve(NormalizeText, c.pendingTopicSelection, message).selected.subtopic)),
                 c)
  {
    ChosenFromOptions(NormalizeText, c.pendingTopicSelection, message);
    AcademicSelectionTurn(kb, c, es, message, f, syllabus, requested, captures);
  }

  /** A reply of the pending-selection handler ends the turn, the context untouched. */
  lemma AcademicSelectionTurn(kb: KnowledgeMap, c: ConversationContext, es: seq<Enrollment>, message: string, f: Flags,
                              syllabus: seq<SubjectSyllabus>, requested: bool, captures: Captures)
    requires es != [] && SelectionAnswer(kb, c, message).Some?
    ensures Academic(kb, c, es, message, f, syllabus, requested, captures)
         == Turn(SelectionBranch, TextReply(SelectionAnswer(kb, c, message).value), c)
  {
  }

  /**
   * The context is updated only once the early branches have passed; the
   * kind of question then always comes from the update.
   */
  lemma ContextUpdatedAfterEarlyBranches(kb: KnowledgeMap, c: ConversationContext, es: seq<Enrollment>, message: string,
                                         f: Flags, syllabus: seq<SubjectSyllabus>, requested: bool, captures: Captures)
    ensures var t := Academic(kb, c, es, message, f, syllabus, requested, captures);
      if t.branch == EmptyBranch || t.branch == SelectionBranch || t.branch == SpecificBranch then t.context == c
      else t.context.lastQueryType == UpdatedContext(c, message, es).lastQueryType
  {
  }

  /**
   * Only two branches change the pending selection: the syllabus overview,
   * which offers syllabus topics, and the roadmap, which offers roadmap
   * topics or withdraws a selection a roadmap offered.
   */
  lemma PendingSelectionChanges(kb: KnowledgeMap, c: ConversationContext, es: seq<Enrollment>, message: string,
                                f: Flags, syllabus: seq<SubjectSyllabus>, requested: bool, captures: Captures)
    ensures var t := Academic(kb, c, es, message, f, syllabus, requested, captures);
      var before, after := c.pendingTopicSelection, t.context.pendingTopicSelection;
      after != before ==>
        || (t.branch == SyllabusBranch && after.Some? && after.value.source == SyllabusSource)
        || (t.branch == RoadmapBranch && after.Some? && after.value.source == RoadmapSource)
        || (t.branch == RoadmapBranch && after.None? && before.Some? && before.value.source == RoadmapSource)
  {
  }

  // ---------------------------------------------------------------------
  // The subjects a roadmap offers
  // ---------------------------------------------------------------------

  /** One admission step keeps every offered subject and offers the new enrollment's entry. */
  lemma AdmitCovers(norm: string -> string, acc: seq<SubjectSyllabus>, low: seq<Enrollment>,
                    syllabus: seq<SubjectSyllabus>, n: nat)
    requires 0 < n <= |low|
    requires OffersAll(norm, acc, low, syllabus, n - 1)
    ensures OffersAll(norm, Admit(norm, acc, syllabus, low[n - 1].subject), low, syllabus, n)
  {
    var r := Admit(norm, acc, syllabus, low[n - 1].subject);
    assert r == acc || exists m :: r == acc + [m];
    forall x | AnySame(norm, acc, x)
      ensures AnySame(norm, r, x)
    {
      var k :| 0 <= k < |acc| && Same(norm, acc[k].subject, x);
      assert r[k] == acc[k];
    }
    var name := low[n - 1].subject;
    if name != "" && EntryFor(norm, syllabus, name).Some? {
      var m := EntryFor(norm, syllabus, name).value;
      assert Same(norm, m.subject, name);
      if |m.topics| > 0 && !AnySame(norm, acc, m.subject) {
        assert r[|acc|] == m;
      }
    }
  }

  /**
   * `r` are syllabus entries with topics, each the same subject as one of
   * the first `n` enrollments of `low`, and no two the same subject.
   */
  predicate OffersFrom(norm: string -> string, r: seq<SubjectSyllabus>, low: seq<Enrollment>,
                       syllabus: seq<SubjectSyllabus>, n: nat)
    requires n <= |low|
  {
    && (forall k :: 0 <= k < |r| ==> r[k] in syllabus && |r[k].topics| > 0)
    && (forall k :: 0 <= k < |r| ==> exists i :: 0 <= i < n && Same(norm, r[k].subject, low[i].subject))
    && (forall a, b :: 0 <= a < b < |r| ==> !Same(norm, r[a].subject, r[b].subject))
  }

  /**
   * The syllabus entry of each of the first `n` enrollments of `low` that
   * has a name, an entry and topics is offered in `r`, up to equivalence.
   */
  predicate OffersAll(norm: string -> string, r: seq<SubjectSyllabus>, low: seq<Enrollment>,
                      syllabus: seq<SubjectSyllabus>, n: nat)
    requires n <= |low|
  {
    forall i :: 0 <= i < n && low[i].subject != "" && EntryFor(norm, syllabus, low[i].subject).Some?
                && |EntryFor(norm, syllabus, low[i].subject).value.topics| > 0
                ==> AnySame(norm, r, EntryFor(norm, syllabus, low[i].subject).value.subject)
  }

  /** Every low-graded subject among the first `n` whose entry has topics is offered. */
  lemma {:induction false} RoadmapSubjectsOfferAll(norm: string -> string, low: seq<Enrollment>,
                                                    syllabus: seq<SubjectSyllabus>, n: nat)
    requires n <= |low|
    ensures OffersAll(norm, RoadmapSubjects(norm, low, syllabus, n), low, syllabus, n)
    decreases n
  {
    if n > 0 {
      RoadmapSubjectsOfferAll(norm, low, syllabus, n - 1);
      AdmitCovers(norm, RoadmapSubjects(norm, low, syllabus, n - 1), low, syllabus, n);
    }
  }

  /**
   * Every subject a roadmap offers is a syllabus entry with topics, for a
   * low-graded enrollment, and no two of them are equivalent; and every
   * low-graded subject whose entry has topics is offered.
   */
  lemma RoadmapSubjectsFacts(norm: string -> string, low: seq<Enrollment>,
                             syllabus: seq<SubjectSyllabus>, n: nat)
    requires n <= |low|
    ensures OffersFrom(norm, RoadmapSubjects(norm, low, syllabus, n), low, syllabus, n)
    ensures OffersAll(norm, RoadmapSubjects(norm, low, syllabus, n), low, syllabus, n)
  {
    RoadmapSubjectsSound(norm, low, syllabus, n);
    RoadmapSubjectsOfferAll(norm, low, syllabus, n);
  }

  /** The offered subjects are entries with topics, for low grades, pairwise not equivalent. */
  lemma {:induction false} RoadmapSubjectsSound(norm: string -> string, low: seq<Enrollment>,
                                                 syllabus: seq<SubjectSyllabus>, n: nat)
    requires n <= |low|
    ensures OffersFrom(norm, RoadmapSubjects(norm, low, syllabus, n), low, syllabus, n)
    decreases n
  {
    if n > 0 {
      RoadmapSubjectsSound(norm, low, syllabus, n - 1);
      var acc := RoadmapSubjects(norm, low, syllabus, n - 1);
      forall k | 0 <= k < |acc|
        ensures exists i :: 0 <= i < n && Same(norm, acc[k].subject, low[i].subject)
      {
        var i :| 0 <= i < n - 1 && Same(norm, acc[k].subject, low[i].subject);
      }
      var name := low[n - 1].subject;
      if name != "" && EntryFor(norm, syllabus, name).Some? {
        var m := EntryFor(norm, syllabus, name).value;
        if |m.topics| > 0 && !AnySame(norm, acc, m.subject) {
          var r := acc + [m];
          assert m in syllabus && Same(norm, m.subject, name);
          forall k | 0 <= k < |r|
            ensures r[k] in syllabus && |r[k].topics| > 0
            ensures exists i :: 0 <= i < n && Same(norm, r[k].subject, low[i].subject)
          {
            if k < |acc| {
              assert r[k] == acc[k];
            }
          }
          forall a, b | 0 <= a < b < |r|
            ensures !Same(norm, r[a].subject, r[b].subject)
          {
            if b == |acc| {
              assert r[a] == acc[a];
            }
          }
        }
      }
    }
  }

  // ---------------------------------------------------------------------
  // The chat history
  // ---------------------------------------------------------------------

  datatype Role = System | User | Assistant

  datatype ChatMessage = ChatMessage(role: Role, content: string)

  const Greeting := "¡Hola! Soy EduBot, tu asistente educativo inteligente. ¿En qué puedo ayudarte hoy con tus estudios?"
  const NoAnswer := "No pude generar una respuesta."

  /** The most messages kept after an answer, and how many recent ones join the system message. */
  const HistoryLimit := 12
  const RecentKept := 11

  /** `initializeChatHistory`: a system message and the greeting, only when there is no history. */
  function SeedHistory(h: seq<ChatMessage>, systemContext: string): (r: seq<ChatMessage>)
    ensures h != [] ==> r == h
    ensures h == [] ==> r == [ChatMessage(System, systemContext), ChatMessage(Assistant, Greeting)]
  {
    if h == [] then [ChatMessage(System, systemContext), ChatMessage(Assistant, Greeting)] else h
  }

  /** Beyond the limit, the first message and the most recent ones. */
  function TrimHistory(h: seq<ChatMessage>): (r: seq<ChatMessage>)
    ensures |r| <= HistoryLimit
    ensures |h| <= HistoryLimit ==> r == h
    ensures h != [] ==> r != [] && r[0] == h[0]
    ensures |h| > HistoryLimit ==> |r| == HistoryLimit && r[1..] == h[|h| - RecentKept..]
  {
    if |h| > HistoryLimit then [h[0]] + h[|h| - RecentKept..] else h
  }

  /** How the completion request ended. */
  datatype Completion = Answered(content: string) | Failed(unauthorized: bool)

  /** The user's message as sent, prefixed with the user's name when there is one. */
  function FinalMessage(message: string, name: string): string {
    if name != "" then "[Usuario: " + name + "] " + message else message
  }

  /** The text of an answered completion; an empty answer is replaced. */
  function AnswerText(content: string): (r: string)
    ensures r != ""
  {
    if content != "" then content else NoAnswer
  }

  /**
   * The history after one exchange with the completion service: seeded,
   * the user's message appended, then, when answered, the answer appended
   * and the whole trimmed.
   */
  function Exchange(h: seq<ChatMessage>, systemContext: string, sent: string, completion: Completion): seq<ChatMessage> {
    var asked := SeedHistory(h, systemContext) + [ChatMessage(User, sent)];
    match completion
    case Answered(content) => TrimHistory(asked + [ChatMessage(Assistant, AnswerText(content))])
    case Failed(_) => asked
  }

  /** The history starts with the system message (or is empty). */
  predicate SystemFirst(h: seq<ChatMessage>) {
    h != [] ==> h[0].role == System
  }

  /**
   * An exchange keeps the system message first; an answered one ends with
   * the user's message and its answer and stays within the limit.
   */
  lemma ExchangeShape(h: seq<ChatMessage>, systemContext: string, sent: string, completion: Completion)
    requires SystemFirst(h)
    ensures var r := Exchange(h, systemContext, sent, completion);
      && r != [] && r[0].role == System
      && (completion.Answered? ==>
            && |r| <= HistoryLimit
            && r[|r| - 2] == ChatMessage(User, sent)
            && r[|r| - 1] == ChatMessage(Assistant, AnswerText(completion.content)))
  {
    var asked := SeedHistory(h, systemContext) + [ChatMessage(User, sent)];
    if completion.Answered? {
      var full := asked + [ChatMessage(Assistant, AnswerText(completion.content))];
      var r := TrimHistory(full);
      if |full| > HistoryLimit {
        assert r[|r| - 2] == full[|full| - 2] && r[|r| - 1] == full[|full| - 1];
      }
    }
  }

  /**
   * A failed exchange is never trimmed: the history grows by the user's
   * message (and by the seed when it was empty), whatever its length.
   */
  lemma FailedExchangeGrows(h: seq<ChatMessage>, systemContext: string, sent: string, unauthorized: bool)
    ensures Exchange(h, systemContext, sent, Failed(unauthorized)) == SeedHistory(h, systemContext) + [ChatMessage(User, sent)]
    ensures |Exchange(h, systemContext, sent, Failed(unauthorized))| > |h|
  {
  }

  /** Seeding an existing history does nothing, so seeding twice is seeding once. */
  lemma SeedIdempotent(h: seq<ChatMessage>, a: string, b: string)
    ensures SeedHistory(SeedHistory(h, a), b) == SeedHistory(h, a)
  {
  }

  // ---------------------------------------------------------------------
  // sendMessage
  // ---------------------------------------------------------------------

  /** `userContext`; absent fields are false and "". */
  datatype UserContext = UserContext(isLoggedIn: bool, token: string, name: string)

  predicate SignedIn(u: UserContext) {
    u.isLoggedIn && u.token != ""
  }

  /** Some academic intent predicate holds for the message. */
  predicate AnyAcademicIntent(f: Flags) {
    f.grade || f.subject || f.classroom || f.section || f.best || f.worst
    || f.roadmap || f.improvement || f.average || f.syllabus
  }

  /** The paths of `sendMessage`. */
  datatype Route = LoginRoute | AcademicRoute | LocalRoute

  /**
   * The routing of `sendMessage`: a syllabus question or a pending
   * selection needs a session; the academic path needs a session, an
   * academic intent and the user's enrollments; everything else is local.
   */
  function RouteOf(f: Flags, u: UserContext, c: ConversationContext, userData: Option<seq<Enrollment>>): (r: Route)
    ensures r == LoginRoute <==> (f.syllabus || c.pendingTopicSelection.Some?) && !SignedIn(u)
    ensures r == AcademicRoute ==> SignedIn(u) && AnyAcademicIntent(f) && userData.Some? && userData.value != []
    ensures SignedIn(u) && AnyAcademicIntent(f) && userData.Some? && userData.value != [] ==> r == AcademicRoute
  {
    if (f.syllabus || c.pendingTopicSelection.Some?) && !SignedIn(u) then LoginRoute
    else if SignedIn(u) && AnyAcademicIntent(f) && userData.Some? && userData.value != [] then AcademicRoute
    else LocalRoute
  }

  /** A pending selection alone does not reach the academic replies: an intent must match too. */
  lemma PendingNeedsIntent(f: Flags, u: UserContext, c: ConversationContext, userData: Option<seq<Enrollment>>)
    requires c.pendingTopicSelection.Some? && !AnyAcademicIntent(f)
    ensures RouteOf(f, u, c, userData) != AcademicRoute
    ensures SignedIn(u) ==> RouteOf(f, u, c, userData) == LocalRoute
  {
  }

  /** The syllabus was asked for: a syllabus question, a pending selection, or an improvement plan. */
  predicate RequestedSyllabus(f: Flags, c: ConversationContext) {
    f.syllabus || c.pendingTopicSelection.Some? || f.roadmap || f.improvement
  }

  /** The replies of `getFallbackResponse`. */
  datatype Fallback = FallbackGreeting(name: string) | FallbackGrades | FallbackDemo

  function FallbackOf(message: string, u: UserContext): (r: Fallback)
    ensures r.FallbackGreeting? ==> r.name == u.name
    ensures r == FallbackGrades <==> IsGradeRelated(message) && !r.FallbackGreeting?
    ensures r.FallbackGreeting? <==> Contains(LowerCase(message), "hola") || Contains(LowerCase(message), "hi")
    ensures r == FallbackDemo <==> !r.FallbackGreeting? && !IsGradeRelated(message)
  {
    LowerCaseInvariant(message);
    var lower := LowerCase(message);
    if Contains(lower, "hola") || Contains(lower, "hi") then FallbackGreeting(u.name)
    else if IsGradeRelated(lower) then FallbackGrades
    else FallbackDemo
  }

  /** What `sendMessage` returns. */
  datatype Answer =
    | LoginRequired
    | AcademicAnswer(reply: Reply)
    | FallbackAnswer(fallback: Fallback)
    | CompletionAnswer(text: string)

  /** The syllabus handed to the academic replies: fetched only when asked for; a failed fetch is none. */
  function SyllabusFor(requested: bool, es: seq<Enrollment>, raw: Option<seq<RawSyllabus>>): (r: seq<SubjectSyllabus>)
    ensures !requested || raw.None? ==> r == []
  {
    if requested && raw.Some? then Aggregate(NormalizeText, es, raw.value) else []
  }

  /** The part of the service state `sendMessage` reads and writes. */
  datatype ServiceState = ServiceState(chatHistory: seq<ChatMessage>, useFallback: bool, context: ConversationContext)

  /**
   * `sendMessage` as a function of the state: the login notice, the
   * academic reply, the fallback reply, or one exchange with the
   * completion service.
   */
  function Send(kb: KnowledgeMap, s: ServiceState, message: string, user: UserContext, systemContext: string,
                userData: Option<seq<Enrollment>>, raw: Option<seq<RawSyllabus>>, captures: Captures,
                completion: Completion): (r: (Answer, ServiceState))
    ensures SystemFirst(s.chatHistory) ==> SystemFirst(r.1.chatHistory)
    ensures s.useFallback ==> r.1.useFallback
    ensures r.1.chatHistory != s.chatHistory ==> !s.useFallback && r.1.context == s.context
  {
    var f := FlagsOf(message);
    match RouteOf(f, user, s.context, userData)
    case LoginRoute => (LoginRequired, s)
    case AcademicRoute =>
      var requested := RequestedSyllabus(f, s.context);
      var t := Academic(kb, s.context, userData.value, message, f, SyllabusFor(requested, userData.value, raw),
                        requested, captures);
      (AcademicAnswer(t.reply), s.(context := t.context))
    case LocalRoute =>
      if s.useFallback then (FallbackAnswer(FallbackOf(message, user)), s)
      else
        var sent := FinalMessage(message, user.name);
        var h := Exchange(s.chatHistory, systemContext, sent, completion);
        assert SystemFirst(s.chatHistory) ==> SystemFirst(h) by {
          if SystemFirst(s.chatHistory) {
            ExchangeShape(s.chatHistory, systemContext, sent, completion);
          }
        }
        match completion
        case Answered(content) => (CompletionAnswer(AnswerText(content)), s.(chatHistory := h))
        case Failed(unauthorized) =>
          (FallbackAnswer(FallbackOf(message, user)), s.(chatHistory := h, useFallback := unauthorized))
  }

  /** Without a session, a syllabus question or a pending selection gets the login notice and changes nothing. */
  lemma LoginGuardsSyllabus(kb: KnowledgeMap, s: ServiceState, message: string, user: UserContext, systemContext: string,
                            userData: Option<seq<Enrollment>>, raw: Option<seq<RawSyllabus>>, captures: Captures,
                            completion: Completion)
    requires (IsSyllabusQuery(message) || s.context.pendingTopicSelection.Some?) && !SignedIn(user)
    ensures Send(kb, s, message, user, systemContext, userData, raw, captures, completion) == (LoginRequired, s)
  {
  }

  /**
   * An academic reply needs a session, an academic intent in the message
   * and enrollments; a pending selection alone is not enough.
   */
  lemma AcademicAnswerNeeds(kb: KnowledgeMap, s: ServiceState, message: string, user: UserContext, systemContext: string,
                            userData: Option<seq<Enrollment>>, raw: Option<seq<RawSyllabus>>, captures: Captures,
                            completion: Completion)
    requires Send(kb, s, message, user, systemContext, userData, raw, captures, completion).0.AcademicAnswer?
    ensures SignedIn(user) && AnyAcademicIntent(FlagsOf(message)) && userData.Some? && userData.value != []
    ensures s.chatHistory == Send(kb, s, message, user, systemContext, userData, raw, captures, completion).1.chatHistory
  {
  }

  /**
   * An answered exchange leaves at most twelve messages, the system message
   * first and the user's message and its answer last.
   */
  lemma AnsweredExchangeBounded(kb: KnowledgeMap, s: ServiceState, message: string, user: UserContext,
                                systemContext: string, userData: Option<seq<Enrollment>>,
                                raw: Option<seq<RawSyllabus>>, captures: Captures, content: string)
    requires SystemFirst(s.chatHistory) && !s.useFallback
    requires RouteOf(FlagsOf(message), user, s.context, userData) == LocalRoute
    ensures var h := Send(kb, s, message, user, systemContext, userData, raw, captures, Answered(content)).1.chatHistory;
      && 2 <= |h| <= HistoryLimit && h[0].role == System
      && h[|h| - 2] == ChatMessage(User, FinalMessage(message, user.name))
      && h[|h| - 1] == ChatMessage(Assistant, AnswerText(content))
    ensures Send(kb, s, message, user, systemContext, userData, raw, captures, Answered(content)).0
         == CompletionAnswer(AnswerText(content))
  {
    ExchangeShape(s.chatHistory, systemContext, FinalMessage(message, user.name), Answered(content));
  }

  // ---------------------------------------------------------------------
  // class ChatbotService
  // ---------------------------------------------------------------------

  /**
   * `ChatbotService`: the history sent to the completion service, the
   * fallback switch and the conversation context, updated in place by the
   * replies. `knowledge` is the study-guide catalog the replies consult.
   */
  class ChatbotService {
    var chatHistory: seq<ChatMessage>
    var isInitialized: bool
    var useFallback: bool
    var lastImageHash: Option<string>
    var context: ConversationContext
    const knowledge: KnowledgeMap

    /** The fields `sendMessage` reads and writes. */
    function State(): ServiceState
      reads this
    {
      ServiceState(chatHistory, useFallback, context)
    }

    /** The history is empty or starts with the system message. */
    predicate Valid()
      reads this
    {
      SystemFirst(chatHistory)
    }

    /**
     * `initializeService`: the fallback is used without a key, with a key
     * not starting with "sk-", or when the connection test fails
     * (`connects` is its outcome).
     */
    constructor (apiKey: string, connects: bool)
      ensures useFallback <==> apiKey == "" || !StartsWith(apiKey, "sk-") || !connects
      ensures chatHistory == [] && !isInitialized && lastImageHash == None && context == EmptyContext
      ensures knowledge == KnowledgeBase
      ensures Valid()
    {
      chatHistory := [];
      isInitialized := false;
      lastImageHash := None;
      context := EmptyContext;
      knowledge := KnowledgeBase;
      if apiKey == "" {
        useFallback := true;
      } else if !StartsWith(apiKey, "sk-") {
        useFallback := true;
      } else {
        useFallback := !connects;
      }
    }

    /** `initializeChatHistory`: seeds an empty history, leaves any other. */
    method InitializeChatHistory(systemContext: string)
      requires Valid()
      modifies this`chatHistory
      ensures Valid()
      ensures chatHistory == SeedHistory(old(chatHistory), systemContext)
      ensures old(chatHistory) != [] ==> chatHistory == old(chatHistory)
    {
      if chatHistory == [] {
        chatHistory := [ChatMessage(System, systemContext), ChatMessage(Assistant, Greeting)];
      }
    }

    /** Past the limit, keeps the system message and the most recent messages. */
    method TrimChatHistory()
      requires Valid()
      modifies this`chatHistory
      ensures Valid()
      ensures chatHistory == TrimHistory(old(chatHistory))
      ensures |chatHistory| <= HistoryLimit
    {
      if |chatHistory| > HistoryLimit {
        var systemMessage := chatHistory[0];
        var recent := chatHistory[|chatHistory| - RecentKept..];
        chatHistory := [systemMessage] + recent;
      }
    }

    /** `updateConversationContext`: the loop over the enrollments stops at the first subject named. */
    method UpdateConversationContext(message: string, es: seq<Enrollment>)
      modifies this`context
      ensures context == UpdatedContext(old(context), message, es)
    {
      var lower := LowerCase(message);
      var i := 0;
      while i < |es|
        invariant 0 <= i <= |es|
        invariant context == old(context)
        invariant forall j :: 0 <= j < i ==> !(es[j].subject != "" && Contains(lower, LowerCase(es[j].subject)))
      {
        var name := es[i].subject;
        if name != "" && Contains(lower, LowerCase(name)) {
          FirstMention(lower, es, i);
          context := context.(lastMentionedMateria := Some(name));
          break;
        }
        i := i + 1;
      }
      var kind := QueryTypeOf(lower);
      if kind.Some? {
        context := context.(lastQueryType := kind);
      }
      if ContainsAny(lower, HelpWords) {
        context := context.(pendingAction := Some(RoadmapAction));
      }
    }

    /** `generateSyllabusOverview` */
    method GenerateSyllabusOverview(es: seq<Enrollment>, message: string, syllabus: seq<SubjectSyllabus>)
      returns (reply: Reply)
      modifies this`context
      ensures (reply, context) == Overview(knowledge, old(context), es, message, syllabus)
    {
      if syllabus == [] {
        return NoticeReply(NoSyllabusFound);
      }
      var targets := OverviewTargets(context, es, message, syllabus);
      if |targets| == 1 {
        var direct := FindNamedOption(NormalizeText, NormalizeText(message), TopicOptionsOf(targets[0]));
        if direct.Some? {
          var text := FormatTopicDetailResponse(knowledge, direct.value.option, direct.value.subtopic);
          return TextReply(text);
        }
        var single := PrepareTopicSelection([targets[0]], SyllabusSource);
        if single.Some? {
          context := Offered(context, single.value).(lastMentionedMateria := Some(targets[0].subject));
          return TextReply(single.value.message);
        }
      }
      var all := PrepareTopicSelection(if targets != [] then targets else syllabus, SyllabusSource);
      if all.Some? {
        context := Offered(context, all.value);
        reply := TextReply(all.value.message);
      } else {
        reply := NoticeReply(NoTopicsListed);
      }
    }

    /** `generateRoadmapResponse` */
    method GenerateRoadmapResponse(es: seq<Enrollment>, syllabus: seq<SubjectSyllabus>) returns (reply: Reply)
      modifies this`context
      ensures (reply, context) == Roadmap(old(context), es, syllabus)
    {
      var low := LowGrades(es);
      if low == [] {
        return AllPassingReply;
      }
      var plans := Plans(low);
      var subjects := CollectRoadmapSubjects(NormalizeText, low, syllabus);
      if subjects != [] {
        var selection := PrepareTopicSelection(subjects, RoadmapSource);
        if selection.Some? {
          context := Offered(context, selection.value);
          return RoadmapReply(low, plans, Some(selection.value.message));
        }
      } else if context.pendingTopicSelection.Some? && context.pendingTopicSelection.value.source == RoadmapSource {
        context := context.(pendingTopicSelection := None);
      }
      reply := RoadmapReply(low, plans, None);
    }

    /**
     * `generateAcademicResponse` with the syllabus already fetched (`[]`
     * when it was not, or could not be).
     */
    method GenerateAcademicResponse(es: seq<Enrollment>, message: string, syllabus: seq<SubjectSyllabus>,
                                    requested: bool, captures: Captures) returns (reply: Reply)
      modifies this`context
      ensures reply == Academic(knowledge, old(context), es, message, FlagsOf(message), syllabus, requested, captures).reply
      ensures context == Academic(knowledge, old(context), es, message, FlagsOf(message), syllabus, requested, captures).context
    {
      if es == [] {
        return NoticeReply(NoEnrollments);
      }
      if context.pendingTopicSelection.Some? {
        var answer := TryHandleTopicSelection(NormalizeText, knowledge, context.pendingTopicSelection, message);
        if answer.Some? {
          AcademicSelectionTurn(knowledge, context, es, message, FlagsOf(message), syllabus, requested, captures);
          return TextReply(answer.value);
        }
      }
      reply := AnswerUnhandled(es, message, syllabus, requested, captures);
    }

    /** `generateAcademicResponse` once no pending selection took the message. */
    method AnswerUnhandled(es: seq<Enrollment>, message: string, syllabus: seq<SubjectSyllabus>,
                           requested: bool, captures: Captures) returns (reply: Reply)
      requires es != [] && SelectionAnswer(knowledge, context, message).None?
      modifies this`context
      ensures reply == Academic(knowledge, old(context), es, message, FlagsOf(message), syllabus, requested, captures).reply
      ensures context == Academic(knowledge, old(context), es, message, FlagsOf(message), syllabus, requested, captures).context
    {
      var q := DetectSpecificQuery(message, es, captures);
      if IsSpecific(q) {
        AcademicSpecificTurn(knowledge, context, es, message, FlagsOf(message), syllabus, requested, captures);
        return SpecificReply(q);
      }
      reply := AnswerByKeywords(es, message, syllabus, requested, captures);
    }

    /** `generateAcademicResponse` once neither a pending selection nor a specific question took the message. */
    method AnswerByKeywords(es: seq<Enrollment>, message: string, syllabus: seq<SubjectSyllabus>,
                            requested: bool, captures: Captures) returns (reply: Reply)
      requires es != [] && SelectionAnswer(knowledge, context, message).None?
      requires !IsSpecific(DetectSpecificQuery(message, es, captures))
      modifies this`context
      ensures reply == Academic(knowledge, old(context), es, message, FlagsOf(message), syllabus, requested, captures).reply
      ensures context == Academic(knowledge, old(context), es, message, FlagsOf(message), syllabus, requested, captures).context
    {
      var f := FlagsOf(message);
      var b := AcademicBranch(es, false, DetectSpecificQuery(message, es, captures), f);
      AcademicLateTurn(knowledge, context, es, message, f, syllabus, requested, captures);
      UpdateConversationContext(message, es);
      reply := LateResponse(es, message, b, syllabus, requested);
    }

    /** The keyword branches of `generateAcademicResponse`, after the context update. */
    method LateResponse(es: seq<Enrollment>, message: string, b: Branch, syllabus: seq<SubjectSyllabus>, requested: bool)
      returns (reply: Reply)
      modifies this`context
      ensures (reply, context) == LateReply(knowledge, old(context), es, message, b, syllabus, requested)
    {
      match b
      case SyllabusBranch =>
        if syllabus == [] {
          reply := NoticeReply(if requested then SyllabusUnreachable else NoSyllabusYet);
        } else {
          reply := GenerateSyllabusOverview(es, message, syllabus);
        }
      case AverageBranch => reply := AverageReply(Average(es));
      case BestBranch => reply := BestReply(BestGrade(es));
      case WorstBranch => reply := WorstReply(WorstGrade(es));
      case RoadmapBranch => reply := GenerateRoadmapResponse(es, syllabus);
      case GradeBranch => reply := GradesReply(Graded(es), Average(es), LowGrades(es));
      case SubjectBranch => reply := SubjectsReply(es);
      case ClassroomBranch => reply := ClassroomReply(es);
      case _ => reply := GeneralReply(CareerGroups(es), Graded(es), Average(es));
    }

    /**
     * `sendMessage`. The enrollments fetched for the user's token
     * (`None`: the request failed), the syllabus records (`None`: the
     * request failed), the captures of the reply patterns and the outcome
     * of the completion request are inputs.
     */
    method SendMessage(message: string, user: UserContext, systemContext: string,
                       userData: Option<seq<Enrollment>>, raw: Option<seq<RawSyllabus>>,
                       captures: Captures, completion: Completion) returns (answer: Answer)
      requires Valid()
      modifies this
      ensures Valid()
      ensures (answer, State()) == Send(knowledge, old(State()), message, user, systemContext, userData, raw,
                                        captures, completion)
      ensures unchanged(this`isInitialized) && unchanged(this`lastImageHash)
    {
      var f := FlagsOf(message);
      var route := RouteOf(f, user, context, userData);
      if route == LoginRoute {
        return LoginRequired;
      }
      if route == AcademicRoute {
        answer := SendAcademicTurn(message, user, systemContext, userData, raw, captures, completion);
      } else {
        answer := SendLocal(message, user, systemContext, userData, raw, captures, completion);
      }
    }

    /** The academic path of `sendMessage`. */
    method SendAcademicTurn(message: string, user: UserContext, systemContext: string,
                            userData: Option<seq<Enrollment>>, raw: Option<seq<RawSyllabus>>,
                            captures: Captures, completion: Completion) returns (answer: Answer)
      requires RouteOf(FlagsOf(message), user, context, userData) == AcademicRoute
      modifies this`context
      ensures (answer, State()) == Send(knowledge, old(State()), message, user, systemContext, userData, raw,
                                        captures, completion)
    {
      var reply := SendAcademic(message, userData.value, RequestedSyllabus(FlagsOf(message), context), raw, captures);
      answer := AcademicAnswer(reply);
    }

    /** The academic path of `sendMessage`: the syllabus fetched when asked for, then the academic reply. */
    method SendAcademic(message: string, es: seq<Enrollment>, requested: bool, raw: Option<seq<RawSyllabus>>,
                        captures: Captures) returns (reply: Reply)
      modifies this`context
      ensures reply == Academic(knowledge, old(context), es, message, FlagsOf(message), SyllabusFor(requested, es, raw),
                                requested, captures).reply
      ensures context == Academic(knowledge, old(context), es, message, FlagsOf(message), SyllabusFor(requested, es, raw),
                                  requested, captures).context
    {
      var syllabus: seq<SubjectSyllabus> := [];
      if requested && raw.Some? {
        syllabus := GetSyllabusDataForUser(es, raw.value);
      }
      reply := GenerateAcademicResponse(es, message, syllabus, requested, captures);
    }

    /**
     * The local path of `sendMessage`: the fallback reply, or one exchange
     * with the completion service; an unauthorized failure switches to the
     * fallback for good.
     */
    method SendLocal(message: string, user: UserContext, systemContext: string,
                     userData: Option<seq<Enrollment>>, raw: Option<seq<RawSyllabus>>,
                     captures: Captures, completion: Completion) returns (answer: Answer)
      requires Valid() && RouteOf(FlagsOf(message), user, context, userData) == LocalRoute
      modifies this`chatHistory, this`useFallback
      ensures Valid()
      ensures (answer, State()) == Send(knowledge, old(State()), message, user, systemContext, userData, raw,
                                        captures, completion)
    {
      if useFallback {
        return FallbackAnswer(FallbackOf(message, user));
      }
      answer := Converse(message, user, systemContext, completion);
    }

    /**
     * One exchange with the completion service: the history seeded, the
     * user's message and the answer appended and the whole trimmed; on a
     * failure only the user's message is kept, and an unauthorized failure
     * switches to the fallback.
     */
    method Converse(message: string, user: UserContext, systemContext: string, completion: Completion)
      returns (answer: Answer)
      requires Valid() && !useFallback
      modifies this`chatHistory, this`useFallback
      ensures Valid()
      ensures chatHistory == Exchange(old(chatHistory), systemContext, FinalMessage(message, user.name), completion)
      ensures completion.Answered? ==> answer == CompletionAnswer(AnswerText(completion.content)) && !useFallback
      ensures completion.Failed? ==> answer == FallbackAnswer(FallbackOf(message, user))
                                     && useFallback == completion.unauthorized
    {
      InitializeChatHistory(systemContext);
      chatHistory := chatHistory + [ChatMessage(User, FinalMessage(message, user.name))];
      match completion {
        case Answered(content) =>
          var text := AnswerText(content);
          chatHistory := chatHistory + [ChatMessage(Assistant, text)];
          TrimChatHistory();
          answer := CompletionAnswer(text);
        case Failed(unauthorized) =>
          if unauthorized {
            useFallback := true;
          }
          answer := FallbackAnswer(FallbackOf(message, user));
      }
    }

    /** `resetChat`: the history dropped and the context emptied. */
    method ResetChat()
      modifies this
      ensures chatHistory == [] && !isInitialized && lastImageHash == None && context == EmptyContext
      ensures unchanged(this`useFallback)
      ensures Valid()
    {
      chatHistory := [];
      isInitialized := false;
      lastImageHash := None;
      context := EmptyContext;
    }
  }

  /** A specific question about a named subject is answered as such, the context untouched. */
  lemma AcademicSpecificTurn(kb: KnowledgeMap, c: ConversationContext, es: seq<Enrollment>, message: string, f: Flags,
                             syllabus: seq<SubjectSyllabus>, requested: bool, captures: Captures)
    requires es != [] && SelectionAnswer(kb, c, message).None? && IsSpecific(DetectSpecificQuery(message, es, captures))
    ensures Academic(kb, c, es, message, f, syllabus, requested, captures)
         == Turn(SpecificBranch, SpecificReply(DetectSpecificQuery(message, es, captures)), c)
  {
  }

  /** Past the early branches, a turn is the context update followed by the keyword branch. */
  lemma AcademicLateTurn(kb: KnowledgeMap, c: ConversationContext, es: seq<Enrollment>, message: string, f: Flags,
                         syllabus: seq<SubjectSyllabus>, requested: bool, captures: Captures)
    requires es != [] && SelectionAnswer(kb, c, message).None? && !IsSpecific(DetectSpecificQuery(message, es, captures))
    ensures Academic(kb, c, es, message, f, syllabus, requested, captures).reply
         == LateReply(kb, UpdatedContext(c, message, es), es, message, AcademicBranch(es, false, DetectSpecificQuery(message, es, captures), f), syllabus, requested).0
    ensures Academic(kb, c, es, message, f, syllabus, requested, captures).context
         == LateReply(kb, UpdatedContext(c, message, es), es, message, AcademicBranch(es, false, DetectSpecificQuery(message, es, captures), f), syllabus, requested).1
  {
  }

  /** The loop's stopping index is the one `MentionedSubject` finds. */
  lemma FirstMention(lower: string, es: seq<Enrollment>, i: int)
    requires 0 <= i < |es| && es[i].subject != "" && Contains(lower, LowerCase(es[i].subject))
    requires forall j :: 0 <= j < i ==> !(es[j].subject != "" && Contains(lower, LowerCase(es[j].subject)))
    ensures MentionedSubject(lower, es) == Some(es[i].subject)
  {
  }

  /** The subject collection loop of `generateRoadmapResponse`. */
  method CollectRoadmapSubjects(norm: string -> string, low: seq<Enrollment>, syllabus: seq<SubjectSyllabus>) returns (subjects: seq<SubjectSyllabus>)
    ensures subjects == RoadmapSubjects(norm, low, syllabus, |low|)
  {
    subjects := [];
    for i := 0 to |low|
      invariant subjects == RoadmapSubjects(norm, low, syllabus, i)
    {
      subjects := AdmitSubject(norm, subjects, syllabus, low[i].subject);
    }
  }

  /** The body of the `forEach` over the low-graded enrollments. */
  method AdmitSubject(norm: string -> string, subjects0: seq<SubjectSyllabus>, syllabus: seq<SubjectSyllabus>, name: string)
    returns (subjects: seq<SubjectSyllabus>)
    ensures subjects == Admit(norm, subjects0, syllabus, name)
  {
    subjects := subjects0;
    if name != "" {
      var entry := EntryFor(norm, syllabus, name);
      if entry.Some? && |entry.value.topics| > 0 && !AnySame(norm, subjects, entry.value.subject) {
        subjects := subjects + [entry.value];
      }
    }
  }
}
