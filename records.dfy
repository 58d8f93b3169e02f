/**
 * The records the chatbot reads: enrollments as the academic API returns
 * them, raw syllabus topics as the syllabus API returns them, and the
 * per-subject syllabus the service builds from both.
 *
 * A string field holds "" where the JSON value is absent, null or empty:
 * the service only ever tests such fields for truthiness or falls back with
 * `||`, so the three cases behave alike.
 */
module Records {
  import opened Text

  datatype Option<T> = None | Some(value: T)

  /** `xs.find(p)`: the first element satisfying `p`. */
  function FindFirst<T>(xs: seq<T>, p: T -> bool): (r: Option<T>)
    ensures r.None? <==> forall i :: 0 <= i < |xs| ==> !p(xs[i])
    ensures r.None? <==> forall x :: x in xs ==> !p(x)
    ensures r.Some? ==> r.value in xs && p(r.value)
    ensures r.Some? ==> exists i :: 0 <= i < |xs| && xs[i] == r.value && p(xs[i])
                                    && forall j :: 0 <= j < i ==> !p(xs[j])
  {
    if xs == [] then None
    else if p(xs[0]) then Some(xs[0])
    else
      var r := FindFirst(xs[1..], p);
      assert forall i :: 1 <= i < |xs| ==> xs[1..][i - 1] == xs[i];
      r
  }

  /** `find` returns the element at the first index where `p` holds. */
  lemma FindFirstAt<T>(xs: seq<T>, p: T -> bool, k: int)
    requires 0 <= k < |xs| && p(xs[k])
    requires forall j :: 0 <= j < k ==> !p(xs[j])
    ensures FindFirst(xs, p) == Some(xs[k])
  {
    var r := FindFirst(xs, p);
    var i :| 0 <= i < |xs| && xs[i] == r.value && p(xs[i]) && forall j :: 0 <= j < i ==> !p(xs[j]);
    assert i == k;
  }

  /** `xs.findIndex(p)`: the first index where `p` holds, or -1. */
  function FindIndex<T>(xs: seq<T>, p: T -> bool): (k: int)
    ensures -1 <= k < |xs|
    ensures k == -1 <==> forall i :: 0 <= i < |xs| ==> !p(xs[i])
    ensures k >= 0 ==> p(xs[k]) && forall i :: 0 <= i < k ==> !p(xs[i])
  {
    if xs == [] then -1
    else if p(xs[0]) then 0
    else
      var k := FindIndex(xs[1..], p);
      assert forall i :: 1 <= i < |xs| ==> xs[1..][i - 1] == xs[i];
      if k == -1 then -1 else k + 1
  }

  /** One enrollment (`inscripcion`). */
  datatype Enrollment = Enrollment(
    subject: string,           // paralelo.materia.nombre
    sectionId: Option<int>,    // paralelo.id_Paralelo
    classroom: string,         // paralelo.aula
    sectionNumber: string,     // paralelo.numero_paralelo
    career: string,            // carrera.nombre
    grade: Option<real>)       // calificacion; None for null or undefined

  /** JavaScript truthiness of an optional number. */
  predicate Truthy(o: Option<int>) {
    o.Some? && o.value != 0
  }

  /** `s || fallback` */
  function OrDefault(s: string, fallback: string): string {
    if s != "" then s else fallback
  }

  /** A subtopic; raw and aggregated subtopics have the same fields. */
  datatype Subtopic = Subtopic(
    id: Option<int>, title: string, description: string, resources: string, order: Option<int>)

  /** A topic as the syllabus API returns it; `subtopics` is None when not an array. */
  datatype RawTopic = RawTopic(
    id: Option<int>, title: string, description: string, week: Option<int>,
    order: Option<int>, subtopics: Option<seq<Subtopic>>)

  /**
   * One syllabus record.  `subject` is `materia.nombre`, or else
   * `id_Materia.nombre`, or else ""; `topics` is None when not an array.
   */
  datatype RawSyllabus = RawSyllabus(
    subject: string, sectionId: Option<int>, topics: Option<seq<RawTopic>>)

  /** A topic of the aggregated syllabus (`SyllabusTema`). */
  datatype Topic = Topic(
    id: Option<int>, title: string, description: string, week: Option<int>,
    order: Option<int>, subtopics: seq<Subtopic>)

  /** The aggregated syllabus of one subject (`MateriaSyllabus`). */
  datatype SubjectSyllabus = SubjectSyllabus(
    subject: string, sectionId: Option<int>, topics: seq<Topic>)
}
