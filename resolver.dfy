/**
 * Working out which enrolled subject a message is about
 * (geminiService.ts `buscarMateria`, `findMateriaFromMessage` and
 * `detectSpecificQuery`).
 *
 * `buscarMateria` and `detectSpecificQuery` compare names after the
 * accent fold (lower-case, NFD, drop U+0300..U+036F); `findMateriaFromMessage`
 * compares them after `normalizeText`.
 */
module Resolver {
  import opened Text
  import opened Records
  import opened Intents

  // ---------------------------------------------------------------------
  // buscarMateria
  // ---------------------------------------------------------------------

  /** Some word of `words` longer than four characters occurs in `candidate`. */
  predicate LongWordIn(words: seq<string>, candidate: string) {
    exists k :: 0 <= k < |words| && |words[k]| > 4 && Contains(candidate, words[k])
  }

  /**
   * The test `buscarMateria` applies to one subject name: either folded
   * name contains the other, or a long word of the subject occurs in the
   * candidate. A subject without a name never matches.
   */
  predicate MatchesSubject(subject: string, candidate: string) {
    var name, wanted := FoldAccents(subject), FoldAccents(candidate);
    subject != ""
    && (Contains(name, wanted) || Contains(wanted, name) || LongWordIn(Split(name, ' '), wanted))
  }

  /** `buscarMateria`: the first enrolled subject that matches the candidate. */
  function BuscarMateria(es: seq<Enrollment>, candidate: string): (r: Option<string>)
    ensures r.None? <==> forall i :: 0 <= i < |es| ==> !MatchesSubject(es[i].subject, candidate)
    ensures r.Some? ==> exists i :: 0 <= i < |es| && es[i].subject == r.value
                                    && MatchesSubject(es[i].subject, candidate)
                                    && forall j :: 0 <= j < i ==> !MatchesSubject(es[j].subject, candidate)
  {
    match FindFirst(es, (e: Enrollment) => MatchesSubject(e.subject, candidate))
    case Some(e) => Some(e.subject)
    case None => None
  }

  /** The result is the subject of the first enrollment that matches. */
  lemma BuscarMateriaAt(es: seq<Enrollment>, candidate: string, k: int)
    requires 0 <= k < |es| && MatchesSubject(es[k].subject, candidate)
    requires forall j :: 0 <= j < k ==> !MatchesSubject(es[j].subject, candidate)
    ensures BuscarMateria(es, candidate) == Some(es[k].subject)
  {
    var r := BuscarMateria(es, candidate);
    var i :| 0 <= i < |es| && es[i].subject == r.value && MatchesSubject(es[i].subject, candidate)
             && forall j :: 0 <= j < i ==> !MatchesSubject(es[j].subject, candidate);
    assert i == k;
  }

  /** Every named subject contains the empty candidate, so it matches. */
  lemma EmptyCandidateMatches(subject: string, candidate: string)
    requires subject != "" && FoldAccents(candidate) == ""
    ensures MatchesSubject(subject, candidate)
  {
    ContainsEmpty(FoldAccents(subject));
  }

  /**
   * A candidate that folds to nothing (an empty or all-blank capture after
   * `trim`) picks the first enrollment that has a subject name.
   */
  lemma EmptyCandidatePicksFirstNamed(es: seq<Enrollment>, candidate: string, k: int)
    requires FoldAccents(candidate) == ""
    requires 0 <= k < |es| && es[k].subject != ""
    requires forall j :: 0 <= j < k ==> es[j].subject == ""
    ensures BuscarMateria(es, candidate) == Some(es[k].subject)
  {
    EmptyCandidateMatches(es[k].subject, candidate);
    BuscarMateriaAt(es, candidate, k);
  }

  /** A candidate equal to an enrolled subject's name finds a subject. */
  lemma ExactNameIsFound(es: seq<Enrollment>, k: int)
    requires 0 <= k < |es| && es[k].subject != ""
    ensures BuscarMateria(es, es[k].subject).Some?
  {
    ContainsSelf(FoldAccents(es[k].subject));
  }

  // ---------------------------------------------------------------------
  // findMateriaFromMessage
  // ---------------------------------------------------------------------

  /** The message, normalised, contains the subject's normalised name. */
  predicate MentionsSubject(message: string, subject: string) {
    subject != "" && Contains(NormalizeText(message), NormalizeText(subject))
  }

  /**
   * `findMateriaFromMessage`: the first enrolled subject the message
   * mentions, or else the subject remembered from earlier (`None` for null).
   */
  function FindMateriaFromMessage(message: string, es: seq<Enrollment>, lastMentioned: Option<string>)
    : (r: Option<string>)
    ensures (exists i :: 0 <= i < |es| && MentionsSubject(message, es[i].subject))
            ==> exists i :: 0 <= i < |es| && MentionsSubject(message, es[i].subject)
                            && r == Some(es[i].subject)
                            && forall j :: 0 <= j < i ==> !MentionsSubject(message, es[j].subject)
    ensures (forall i :: 0 <= i < |es| ==> !MentionsSubject(message, es[i].subject)) ==> r == lastMentioned
  {
    match FindFirst(es, (e: Enrollment) => MentionsSubject(message, e.subject))
    case Some(e) => Some(e.subject)
    case None => lastMentioned
  }

  /** A subject whose name normalises to nothing counts as mentioned by every message. */
  lemma BlankNameAlwaysMentioned(message: string, subject: string)
    requires subject != "" && NormalizeText(subject) == ""
    ensures MentionsSubject(message, subject)
  {
    ContainsEmpty(NormalizeText(message));
  }

  // ---------------------------------------------------------------------
  // detectSpecificQuery
  // ---------------------------------------------------------------------

  /** What a specific question asks about one subject. */
  datatype Facet = Classroom | Section | Grade | General

  /** `{type, materiaNombre, query}`; `type` is 'none' for `NoQuery`. */
  datatype SpecificQuery = NoQuery | Query(facet: Facet, materia: string)

  /**
   * The capture groups of the question patterns, one string per pattern
   * in pattern order: the group's text, or "" when the pattern does not
   * match.
   */
  datatype Captures = Captures(aula: seq<string>, paralelo: seq<string>, materia: seq<string>)

  /** The first capture that, trimmed, names an enrolled subject, and that subject. */
  function FirstCaptureHit(captures: seq<string>, es: seq<Enrollment>): (r: Option<string>)
    ensures r.None? <==> forall k :: 0 <= k < |captures| ==>
                           captures[k] == "" || BuscarMateria(es, Trim(captures[k])).None?
    ensures r.Some? ==> exists k :: 0 <= k < |captures| && captures[k] != ""
                                    && BuscarMateria(es, Trim(captures[k])) == r
                                    && forall j :: 0 <= j < k ==>
                                         captures[j] == "" || BuscarMateria(es, Trim(captures[j])).None?
  {
    match FindFirst(captures, (c: string) => c != "" && BuscarMateria(es, Trim(c)).Some?)
    case Some(c) => BuscarMateria(es, Trim(c))
    case None => None
  }

  /** The folded message names this enrolled subject. */
  predicate NamesSubject(folded: string, subject: string) {
    subject != "" && Contains(folded, FoldAccents(subject))
  }

  /** The direct scan: the first enrolled subject whose folded name is in the folded message. */
  function DirectScan(folded: string, es: seq<Enrollment>): (r: Option<string>)
    ensures r.None? <==> forall i :: 0 <= i < |es| ==> !NamesSubject(folded, es[i].subject)
    ensures r.Some? ==> exists i :: 0 <= i < |es| && es[i].subject == r.value
                                    && NamesSubject(folded, es[i].subject)
                                    && forall j :: 0 <= j < i ==> !NamesSubject(folded, es[j].subject)
  {
    match FindFirst(es, (e: Enrollment) => NamesSubject(folded, e.subject))
    case Some(e) => Some(e.subject)
    case None => None
  }

  const ClassroomWords: seq<string> := ["aula", "salon", "ubicacion"]
  const SectionWords: seq<string> := ["paralelo", "grupo", "seccion"]

  /** What the direct scan answers about, by priority aula > paralelo > grade > general. */
  function FacetOf(folded: string): Facet {
    if ContainsAny(folded, ClassroomWords) then Classroom
    else if ContainsAny(folded, SectionWords) then Section
    else if IsGradeRelated(folded) then Grade
    else General
  }

  /**
   * `detectSpecificQuery`: the classroom patterns, then the section
   * patterns, then the grade patterns, each resolved through
   * `buscarMateria`; then the direct scan of enrolled names.
   */
  function DetectSpecificQuery(message: string, es: seq<Enrollment>, captures: Captures): SpecificQuery {
    var folded := FoldAccents(message);
    match FirstCaptureHit(captures.aula, es)
    case Some(m) => Query(Classroom, m)
    case None =>
      match FirstCaptureHit(captures.paralelo, es)
      case Some(m) => Query(Section, m)
      case None =>
        match FirstCaptureHit(captures.materia, es)
        case Some(m) => Query(Grade, m)
        case None =>
          match DirectScan(folded, es)
          case Some(m) => Query(FacetOf(folded), m)
          case None => NoQuery
  }

  /** Whatever the path, the subject reported is the name of an enrolled subject. */
  lemma DetectedSubjectIsEnrolled(message: string, es: seq<Enrollment>, captures: Captures)
    ensures var q := DetectSpecificQuery(message, es, captures);
      q.Query? ==> q.materia != "" && exists i :: 0 <= i < |es| && es[i].subject == q.materia
  {
  }

  /**
   * There is no specific query exactly when no capture names an enrolled
   * subject and no enrolled name occurs in the folded message.
   */
  lemma NoQueryIff(message: string, es: seq<Enrollment>, captures: Captures)
    ensures DetectSpecificQuery(message, es, captures) == NoQuery
        <==> FirstCaptureHit(captures.aula, es).None?
             && FirstCaptureHit(captures.paralelo, es).None?
             && FirstCaptureHit(captures.materia, es).None?
             && forall i :: 0 <= i < |es| ==> !NamesSubject(FoldAccents(message), es[i].subject)
  {
  }

  /**
   * When no capture names a subject, the direct scan answers about the
   * first subject named in the message, and the facet follows the
   * keywords in the folded message: classroom words first, then section
   * words, then grade words.
   */
  lemma DirectScanFacets(message: string, es: seq<Enrollment>, captures: Captures, k: int)
    requires FirstCaptureHit(captures.aula, es).None?
    requires FirstCaptureHit(captures.paralelo, es).None?
    requires FirstCaptureHit(captures.materia, es).None?
    requires 0 <= k < |es| && NamesSubject(FoldAccents(message), es[k].subject)
    requires forall j :: 0 <= j < k ==> !NamesSubject(FoldAccents(message), es[j].subject)
    ensures var q, folded := DetectSpecificQuery(message, es, captures), FoldAccents(message);
      && q.Query? && q.materia == es[k].subject
      && (q.facet == Classroom <==> ContainsAny(folded, ClassroomWords))
      && (q.facet == Section <==> !ContainsAny(folded, ClassroomWords) && ContainsAny(folded, SectionWords))
      && (q.facet == Grade <==> !ContainsAny(folded, ClassroomWords) && !ContainsAny(folded, SectionWords)
                                && IsGradeRelated(folded))
  {
    FindFirstAt(es, (e: Enrollment) => NamesSubject(FoldAccents(message), e.subject), k);
  }

  /** A classroom capture that names a subject wins over every later pass. */
  lemma ClassroomPatternsFirst(message: string, es: seq<Enrollment>, captures: Captures, k: int)
    requires 0 <= k < |captures.aula| && captures.aula[k] != ""
    requires BuscarMateria(es, Trim(captures.aula[k])).Some?
    ensures DetectSpecificQuery(message, es, captures).Query?
    ensures DetectSpecificQuery(message, es, captures).facet == Classroom
  {
    assert FirstCaptureHit(captures.aula, es).Some?;
  }
}
