/**
 * Keyword intent detection of the chatbot service: each predicate asks
 * whether the lower-cased message contains one of a fixed list of phrases,
 * the worst-grade test adds two order-sensitive patterns, and the syllabus
 * test works on the normalised message.  The voice-intent classifier picks
 * the first predicate that fires, in a fixed priority order.
 */
module Intents {
  import opened Text

  /** `keywords.some(k => s.includes(k))` */
  predicate ContainsAny(s: string, keywords: seq<string>) {
    exists k :: 0 <= k < |keywords| && Contains(s, keywords[k])
  }

  const GradeKeywords: seq<string> := [
    "calificacion", "nota", "promedio", "calificación", "notas", "nota final",
    "qué nota tengo", "mis calificaciones", "mejor nota", "peor nota",
    "nota mas alta", "nota mas baja", "mayor calificacion", "menor calificacion",
    "puntaje", "puntuación"]

  const AverageKeywords: seq<string> := [
    "promedio", "promedio general", "mi promedio", "qué promedio tengo",
    "cual es mi promedio", "promedio de notas", "nota promedio"]

  const SubjectKeywords: seq<string> := [
    "materia", "clase", "asignatura", "curso", "mis materias",
    "qué materias tengo", "en qué materias estoy", "cursos"]

  const ClassroomKeywords: seq<string> := [
    "aula", "salón", "salon", "clase", "dónde es la clase",
    "donde es la clase", "dónde me toca", "donde me toca",
    "ubicación", "ubicacion", "lugar de clase"]

  const SectionKeywords: seq<string> := [
    "paralelo", "grupo", "sección", "seccion", "número de clase",
    "numero de clase", "qué paralelo"]

  const BestGradeKeywords: seq<string> := [
    "mejor nota", "mayor calificacion", "nota mas alta", "mejor calificacion",
    "mayor nota", "calificacion mas alta", "cual es mi mejor", "en que voy mejor",
    "nota más alta"]

  const WorstGradeKeywords: seq<string> := [
    "peor nota", "menor calificacion", "nota mas baja", "peor calificacion",
    "menor nota", "calificacion mas baja", "cual es mi peor", "en que voy peor",
    "donde estoy mal", "que materia debo mejorar", "nota más baja", "nota menor",
    "menor puntaje", "peor puntaje", "calificacion menor", "puntaje mas bajo",
    "peor calificacion", "nota mas pequeña", "calificacion mas pequeña",
    "en que materia voy peor", "cual es mi menor", "mi peor materia",
    "donde tengo menos", "menor calificacion", "peor rendimiento"]

  /** The alternatives of the two worst-grade regular expressions. */
  const LowWords: seq<string> := ["menor", "peor", "baja", "bajo"]
  const ScoreWordsOrSubject: seq<string> := ["nota", "calificacion", "puntaje", "materia"]
  const ScoreWords: seq<string> := ["nota", "calificacion", "puntaje"]

  const RoadmapKeywords: seq<string> := [
    "ayuda", "mejorar", "como mejoro", "que hago", "plan de estudio",
    "roadmap", "estrategia", "consejos", "como puedo mejorar", "recuperar",
    "me ayuda", "necesito ayuda", "qué debo hacer", "recomendación"]

  const ImprovementKeywords: seq<string> := [
    "subir", "mejorar", "incrementar", "aumentar", "elevar", "subir nota",
    "mejorar calificación", "subir calificación", "recuperar nota"]

  const SyllabusKeywords: seq<string> := [
    "silabo", "syllabus", "tema", "temas", "subtema", "subtemas", "unidad",
    "contenido", "repasar contenido", "plan de estudio detallado"]

  const GreetingWords: seq<string> := ["hola", "buenos", "buenas", "hey", "holi"]

  predicate IsGradeRelated(message: string) {
    ContainsAny(LowerCase(message), GradeKeywords)
  }

  predicate IsAverageQuery(message: string) {
    ContainsAny(LowerCase(message), AverageKeywords)
  }

  predicate IsSubjectRelated(message: string) {
    ContainsAny(LowerCase(message), SubjectKeywords)
  }

  predicate IsClassroomRelated(message: string) {
    ContainsAny(LowerCase(message), ClassroomKeywords)
  }

  predicate IsSectionRelated(message: string) {
    ContainsAny(LowerCase(message), SectionKeywords)
  }

  predicate IsBestGradeQuery(message: string) {
    ContainsAny(LowerCase(message), BestGradeKeywords)
  }

  predicate IsRoadmapQuery(message: string) {
    ContainsAny(LowerCase(message), RoadmapKeywords)
  }

  predicate IsImprovementQuery(message: string) {
    ContainsAny(LowerCase(message), ImprovementKeywords) && IsGradeRelated(message)
  }

  predicate IsSyllabusQuery(message: string) {
    ContainsAny(NormalizeText(message), SyllabusKeywords)
  }

  // ---------------------------------------------------------------------
  // The worst-grade patterns `(A|..).*(B|..)` with the `i` flag.  The
  // alternatives are lower-case ASCII, so case-insensitive matching on the
  // message is matching on its lower-cased form; `.` is any character but a
  // line terminator.
  // ---------------------------------------------------------------------

  predicate NoLineBreak(s: string) {
    forall i :: 0 <= i < |s| ==> !IsLineTerminator(s[i])
  }

  /** The longest prefix of `s` without a line terminator. */
  function LineRest(s: string): (r: string)
    ensures |r| <= |s| && r == s[..|r|] && NoLineBreak(r)
    ensures |r| < |s| ==> IsLineTerminator(s[|r|])
  {
    if s == [] || IsLineTerminator(s[0]) then [] else [s[0]] + LineRest(s[1..])
  }

  /** The regular expression engine's scan: try each start position in turn. */
  predicate OrderedScan(s: string, first: seq<string>, second: seq<string>)
    decreases |s|
  {
    (exists a :: 0 <= a < |first| && StartsWith(s, first[a])
                 && ContainsAny(LineRest(s[|first[a]|..]), second))
    || (s != [] && OrderedScan(s[1..], first, second))
  }

  /** A word of `first` occurs, and later on the same line a word of `second`. */
  ghost predicate OrderedOnOneLine(s: string, first: seq<string>, second: seq<string>) {
    exists i, a, b, j :: 0 <= a < |first| && 0 <= b < |second|
      && OccursAt(s, first[a], i) && i + |first[a]| <= j && OccursAt(s, second[b], j)
      && NoLineBreak(s[i + |first[a]|..j])
  }

  predicate NoLineBreaks(words: seq<string>) {
    forall k :: 0 <= k < |words| ==> NoLineBreak(words[k])
  }

  predicate IsWorstGradeQuery(message: string) {
    var lower := LowerCase(message);
    ContainsAny(lower, WorstGradeKeywords)
    || OrderedScan(lower, LowWords, ScoreWordsOrSubject)
    || OrderedScan(lower, ScoreWords, LowWords)
  }

  /** A word without line breaks lies in the line's rest exactly when it occurs before any line break. */
  lemma LineRestContains(r: string, y: string)
    requires NoLineBreak(y)
    ensures Contains(LineRest(r), y) <==> exists j :: OccursAt(r, y, j) && NoLineBreak(r[..j])
  {
    var l := LineRest(r);
    ContainsIff(l, y);
    ContainsIff(r, y);
    if Contains(l, y) {
      var j :| OccursAt(l, y, j);
      assert r[j..j + |y|] == l[j..j + |y|];
      assert r[..j] == l[..j];
      assert OccursAt(r, y, j) && NoLineBreak(r[..j]);
    }
    if exists j :: OccursAt(r, y, j) && NoLineBreak(r[..j]) {
      var j :| OccursAt(r, y, j) && NoLineBreak(r[..j]);
      forall p | 0 <= p < j + |y|
        ensures !IsLineTerminator(r[p])
      {
        if p < j {
          assert r[..j][p] == r[p];
        } else {
          assert r[j..j + |y|][p - j] == r[p];
        }
      }
      assert j + |y| <= |l|;
      assert l[j..j + |y|] == r[j..j + |y|];
      assert OccursAt(l, y, j);
    }
  }

  /** One start position of the scan agrees with the declarative pattern at that position. */
  lemma MatchHere(s: string, x: string, second: seq<string>)
    requires NoLineBreaks(second)
    requires StartsWith(s, x)
    ensures ContainsAny(LineRest(s[|x|..]), second)
        <==> exists b, j :: 0 <= b < |second| && |x| <= j && OccursAt(s, second[b], j)
                            && NoLineBreak(s[|x|..j])
  {
    var r := s[|x|..];
    if ContainsAny(LineRest(r), second) {
      var b :| 0 <= b < |second| && Contains(LineRest(r), second[b]);
      LineRestContains(r, second[b]);
      var j' :| OccursAt(r, second[b], j') && NoLineBreak(r[..j']);
      assert s[|x| + j'..|x| + j' + |second[b]|] == r[j'..j' + |second[b]|];
      assert s[|x|..|x| + j'] == r[..j'];
      assert OccursAt(s, second[b], |x| + j');
    }
    if exists b, j :: 0 <= b < |second| && |x| <= j && OccursAt(s, second[b], j)
                      && NoLineBreak(s[|x|..j]) {
      var b, j :| 0 <= b < |second| && |x| <= j && OccursAt(s, second[b], j)
                  && NoLineBreak(s[|x|..j]);
      assert r[j - |x|..j - |x| + |second[b]|] == s[j..j + |second[b]|];
      assert r[..j - |x|] == s[|x|..j];
      assert OccursAt(r, second[b], j - |x|);
      LineRestContains(r, second[b]);
    }
  }

  /** A pattern match in the tail is one in the whole string, one position later. */
  lemma ShiftMatch(s: string, first: seq<string>, second: seq<string>)
    requires s != []
    ensures OrderedOnOneLine(s[1..], first, second) ==> OrderedOnOneLine(s, first, second)
  {
    if OrderedOnOneLine(s[1..], first, second) {
      var t := s[1..];
      var i, a, b, j :| 0 <= a < |first| && 0 <= b < |second|
        && OccursAt(t, first[a], i) && i + |first[a]| <= j && OccursAt(t, second[b], j)
        && NoLineBreak(t[i + |first[a]|..j]);
      assert s[i + 1..i + 1 + |first[a]|] == t[i..i + |first[a]|];
      assert s[j + 1..j + 1 + |second[b]|] == t[j..j + |second[b]|];
      assert s[i + 1 + |first[a]|..j + 1] == t[i + |first[a]|..j];
      assert OccursAt(s, first[a], i + 1) && OccursAt(s, second[b], j + 1);
    }
  }

  /** A slice of the tail is the slice of the string one position further on. */
  lemma TailSlice(s: string, x: int, y: int)
    requires 0 <= x <= y && y + 1 <= |s|
    ensures s[1..][x..y] == s[x + 1..y + 1]
  {
  }

  /** A pattern match not at position 0 is a match in the tail. */
  lemma UnshiftMatch(s: string, first: seq<string>, second: seq<string>, i: int, a: int, b: int, j: int)
    requires 0 <= a < |first| && 0 <= b < |second|
    requires OccursAt(s, first[a], i) && i + |first[a]| <= j && OccursAt(s, second[b], j)
    requires NoLineBreak(s[i + |first[a]|..j])
    requires i > 0
    ensures OrderedOnOneLine(s[1..], first, second)
  {
    var t := s[1..];
    TailSlice(s, i - 1, i - 1 + |first[a]|);
    TailSlice(s, j - 1, j - 1 + |second[b]|);
    TailSlice(s, i - 1 + |first[a]|, j - 1);
    assert OccursAt(t, first[a], i - 1) && OccursAt(t, second[b], j - 1);
  }

  lemma {:induction false} OrderedScanSound(s: string, first: seq<string>, second: seq<string>)
    requires NoLineBreaks(second)
    requires OrderedScan(s, first, second)
    ensures OrderedOnOneLine(s, first, second)
    decreases |s|
  {
    if a :| 0 <= a < |first| && StartsWith(s, first[a])
             && ContainsAny(LineRest(s[|first[a]|..]), second) {
      MatchHere(s, first[a], second);
      var b, j :| 0 <= b < |second| && |first[a]| <= j && OccursAt(s, second[b], j)
                  && NoLineBreak(s[|first[a]|..j]);
      assert OccursAt(s, first[a], 0);
    } else {
      OrderedScanSound(s[1..], first, second);
      ShiftMatch(s, first, second);
    }
  }

  lemma {:induction false} OrderedScanComplete(s: string, first: seq<string>, second: seq<string>)
    requires NoLineBreaks(second)
    requires OrderedOnOneLine(s, first, second)
    ensures OrderedScan(s, first, second)
    decreases |s|
  {
    var i, a, b, j :| 0 <= a < |first| && 0 <= b < |second|
      && OccursAt(s, first[a], i) && i + |first[a]| <= j && OccursAt(s, second[b], j)
      && NoLineBreak(s[i + |first[a]|..j]);
    if i == 0 {
      assert StartsWith(s, first[a]);
      MatchHere(s, first[a], second);
    } else {
      UnshiftMatch(s, first, second, i, a, b, j);
      OrderedScanComplete(s[1..], first, second);
    }
  }

  /**
   * The scan finds a match exactly when some word of `first` is followed on
   * the same line by some word of `second`.
   */
  lemma OrderedScanIff(s: string, first: seq<string>, second: seq<string>)
    requires NoLineBreaks(second)
    ensures OrderedScan(s, first, second) <==> OrderedOnOneLine(s, first, second)
  {
    if OrderedScan(s, first, second) {
      OrderedScanSound(s, first, second);
    }
    if OrderedOnOneLine(s, first, second) {
      OrderedScanComplete(s, first, second);
    }
  }

  /** The worst-grade test, with the two regular expressions read declaratively. */
  lemma WorstGradeQueryIff(message: string)
    ensures IsWorstGradeQuery(message) <==>
      var lower := LowerCase(message);
      ContainsAny(lower, WorstGradeKeywords)
      || OrderedOnOneLine(lower, LowWords, ScoreWordsOrSubject)
      || OrderedOnOneLine(lower, ScoreWords, LowWords)
  {
    var lower := LowerCase(message);
    assert NoLineBreaks(ScoreWordsOrSubject);
    assert NoLineBreaks(LowWords);
    OrderedScanIff(lower, LowWords, ScoreWordsOrSubject);
    OrderedScanIff(lower, ScoreWords, LowWords);
  }

  // ---------------------------------------------------------------------
  // Facts about the predicates
  // ---------------------------------------------------------------------

  /** Every improvement query is grade related. */
  lemma ImprovementIsGradeRelated(message: string)
    requires IsImprovementQuery(message)
    ensures IsGradeRelated(message)
  {
  }

  /**
   * The keyword predicates give the same answer on the lower-cased message,
   * so the context update (which lower-cases first) agrees with them.
   */
  lemma LowerCaseInvariant(message: string)
    ensures IsGradeRelated(LowerCase(message)) == IsGradeRelated(message)
    ensures IsSubjectRelated(LowerCase(message)) == IsSubjectRelated(message)
    ensures IsRoadmapQuery(LowerCase(message)) == IsRoadmapQuery(message)
    ensures IsClassroomRelated(LowerCase(message)) == IsClassroomRelated(message)
    ensures IsBestGradeQuery(LowerCase(message)) == IsBestGradeQuery(message)
    ensures IsWorstGradeQuery(LowerCase(message)) == IsWorstGradeQuery(message)
  {
    LowerCaseIdempotent(message);
  }

  /** The syllabus test does not change when the message is normalised first. */
  lemma SyllabusQueryOfNormalized(message: string)
    ensures IsSyllabusQuery(NormalizeText(message)) == IsSyllabusQuery(message)
  {
    NormalizeIdempotent(message);
  }

  /** Messages that normalise alike ask for the syllabus alike. */
  lemma SyllabusQueryRespectsEquivalence(a: string, b: string)
    requires Equivalent(a, b)
    ensures IsSyllabusQuery(a) == IsSyllabusQuery(b)
  {
  }

  // ---------------------------------------------------------------------
  // Voice intent classification
  // ---------------------------------------------------------------------

  datatype VoiceIntent =
    | ConsultaNotas | ConsultaMaterias | ConsultaAula | MejorNota | PeorNota
    | PlanMejora | Saludo | Otro

  /** `basicIntentAnalysis`: an if-chain over the lower-cased transcription. */
  function BasicIntentAnalysis(transcription: string): VoiceIntent {
    var lower := LowerCase(transcription);
    if IsGradeRelated(lower) then ConsultaNotas
    else if IsSubjectRelated(lower) then ConsultaMaterias
    else if IsClassroomRelated(lower) then ConsultaAula
    else if IsBestGradeQuery(lower) then MejorNota
    else if IsWorstGradeQuery(lower) then PeorNota
    else if IsRoadmapQuery(lower) then PlanMejora
    else if ContainsAny(lower, GreetingWords) then Saludo
    else Otro
  }

  /** The first rule whose guard holds, or the default. */
  function FirstHit<T>(rules: seq<(bool, T)>, default: T): (r: T)
    ensures (exists k :: 0 <= k < |rules| && rules[k].0 && r == rules[k].1
                         && forall j :: 0 <= j < k ==> !rules[j].0)
         || ((forall k :: 0 <= k < |rules| ==> !rules[k].0) && r == default)
  {
    if rules == [] then default
    else if rules[0].0 then rules[0].1
    else
      var r := FirstHit(rules[1..], default);
      assert forall j :: 1 <= j < |rules| ==> rules[1..][j - 1] == rules[j];
      r
  }

  lemma FirstHitAt<T>(rules: seq<(bool, T)>, default: T, k: int)
    requires 0 <= k < |rules| && rules[k].0
    requires forall j :: 0 <= j < k ==> !rules[j].0
    ensures FirstHit(rules, default) == rules[k].1
  {
  }

  lemma FirstHitNone<T>(rules: seq<(bool, T)>, default: T)
    requires forall k :: 0 <= k < |rules| ==> !rules[k].0
    ensures FirstHit(rules, default) == default
  {
  }

  /** The classifier's priority table. */
  function VoiceRules(lower: string): seq<(bool, VoiceIntent)> {
    [(IsGradeRelated(lower), ConsultaNotas),
     (IsSubjectRelated(lower), ConsultaMaterias),
     (IsClassroomRelated(lower), ConsultaAula),
     (IsBestGradeQuery(lower), MejorNota),
     (IsWorstGradeQuery(lower), PeorNota),
     (IsRoadmapQuery(lower), PlanMejora),
     (ContainsAny(lower, GreetingWords), Saludo)]
  }

  /** The if-chain is the first hit of the priority table. */
  lemma BasicIntentIsFirstHit(transcription: string)
    ensures BasicIntentAnalysis(transcription) == FirstHit(VoiceRules(LowerCase(transcription)), Otro)
  {
    var lower := LowerCase(transcription);
    var rules := VoiceRules(lower);
    if IsGradeRelated(lower) {
      FirstHitAt(rules, Otro, 0);
    } else if IsSubjectRelated(lower) {
      FirstHitAt(rules, Otro, 1);
    } else if IsClassroomRelated(lower) {
      FirstHitAt(rules, Otro, 2);
    } else if IsBestGradeQuery(lower) {
      FirstHitAt(rules, Otro, 3);
    } else if IsWorstGradeQuery(lower) {
      FirstHitAt(rules, Otro, 4);
    } else if IsRoadmapQuery(lower) {
      FirstHitAt(rules, Otro, 5);
    } else if ContainsAny(lower, GreetingWords) {
      FirstHitAt(rules, Otro, 6);
    } else {
      FirstHitNone(rules, Otro);
    }
  }

  /**
   * "clase" is both a subject and a classroom keyword, and subjects come
   * first: a transcription mentioning it is never classified as a classroom
   * question.
   */
  lemma ClaseNeverClassroom(transcription: string)
    requires Contains(LowerCase(transcription), "clase")
    ensures BasicIntentAnalysis(transcription) != ConsultaAula
  {
    LowerCaseIdempotent(transcription);
    assert SubjectKeywords[1] == "clase";
  }

  /** A transcription naming no phrase of any list classifies as `Otro`, and conversely. */
  lemma OtroIffNothingMatches(transcription: string)
    ensures BasicIntentAnalysis(transcription) == Otro <==>
      var rules := VoiceRules(LowerCase(transcription));
      forall k :: 0 <= k < |rules| ==> !rules[k].0
  {
    BasicIntentIsFirstHit(transcription);
  }
}
