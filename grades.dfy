/**
 * The grade computations behind the academic answers: which enrollments
 * carry a grade, their average and its band, the best and the worst grade
 * (as the service's `reduce` calls pick them), the per-subject improvement
 * plan, and the grouping of enrollments by career.
 */
module Grades {
  import opened Records

  /** The 90 / 80 / 70 banding of a grade or an average. */
  datatype Band = Excellent | VeryGood | Satisfactory | NeedsImprovement

  function BandOf(g: real): Band {
    if g >= 90.0 then Excellent
    else if g >= 80.0 then VeryGood
    else if g >= 70.0 then Satisfactory
    else NeedsImprovement
  }

  function Rank(b: Band): int {
    match b
    case NeedsImprovement => 0
    case Satisfactory => 1
    case VeryGood => 2
    case Excellent => 3
  }

  /** A higher grade never falls in a lower band. */
  lemma BandMonotone(g: real, h: real)
    requires g <= h
    ensures Rank(BandOf(g)) <= Rank(BandOf(h))
  {
  }

  /** Passing (70 or more) is exactly the bands above `NeedsImprovement`. */
  lemma BandPassing(g: real)
    ensures BandOf(g) != NeedsImprovement <==> g >= 70.0
    ensures BandOf(g) == Excellent <==> g >= 90.0
  {
  }

  // ---------------------------------------------------------------------
  // Graded enrollments and their average
  // ---------------------------------------------------------------------

  predicate AllGraded(es: seq<Enrollment>) {
    forall i :: 0 <= i < |es| ==> es[i].grade.Some?
  }

  /** `filter(insc => insc.calificacion !== null && insc.calificacion !== undefined)` */
  function Graded(es: seq<Enrollment>): (r: seq<Enrollment>)
    ensures AllGraded(r)
    ensures |r| <= |es|
    ensures forall e :: e in r <==> e in es && e.grade.Some?
  {
    if es == [] then []
    else if es[0].grade.Some? then [es[0]] + Graded(es[1..])
    else Graded(es[1..])
  }

  function Sum(gs: seq<Enrollment>): real
    requires AllGraded(gs)
  {
    if gs == [] then 0.0 else gs[0].grade.value + Sum(gs[1..])
  }

  /** The mean of the present grades; None when no enrollment has a grade. */
  function Average(es: seq<Enrollment>): (r: Option<real>)
    ensures r.None? <==> forall e :: e in es ==> e.grade.None?
  {
    var gs := Graded(es);
    if gs == [] then
      None
    else
      assert gs[0] in es;
      Some(Sum(gs) / |gs| as real)
  }

  lemma {:induction false} SumBounds(gs: seq<Enrollment>, lo: real, hi: real)
    requires AllGraded(gs)
    requires forall i :: 0 <= i < |gs| ==> lo <= gs[i].grade.value <= hi
    ensures |gs| as real * lo <= Sum(gs) <= |gs| as real * hi
  {
    if gs != [] {
      SumBounds(gs[1..], lo, hi);
    }
  }

  lemma DivisionBounds(total: real, n: real, lo: real, hi: real)
    requires n > 0.0 && n * lo <= total <= n * hi
    ensures lo <= total / n <= hi
  {
  }

  /** The average lies between any lower and any upper bound of the grades. */
  lemma AverageBounds(es: seq<Enrollment>, lo: real, hi: real)
    requires forall e :: e in es && e.grade.Some? ==> lo <= e.grade.value <= hi
    requires Average(es).Some?
    ensures lo <= Average(es).value <= hi
  {
    var gs := Graded(es);
    forall i | 0 <= i < |gs|
      ensures lo <= gs[i].grade.value <= hi
    {
      assert gs[i] in es;
    }
    SumBounds(gs, lo, hi);
    DivisionBounds(Sum(gs), |gs| as real, lo, hi);
  }

  // ---------------------------------------------------------------------
  // Best and worst grade: `reduce` keeps the accumulator unless the next
  // element is strictly better, so ties go to the first enrollment.
  // ---------------------------------------------------------------------

  function BestOf(gs: seq<Enrollment>): (r: Enrollment)
    requires gs != [] && AllGraded(gs)
    ensures r in gs && r.grade.Some?
    ensures forall i :: 0 <= i < |gs| ==> gs[i].grade.value <= r.grade.value
    ensures exists k :: 0 <= k < |gs| && gs[k] == r
                        && forall j :: 0 <= j < k ==> gs[j].grade.value < r.grade.value
    decreases |gs|
  {
    if |gs| == 1 then gs[0]
    else
      var init := gs[..|gs| - 1];
      var m := BestOf(init);
      var x := gs[|gs| - 1];
      assert forall i :: 0 <= i < |init| ==> init[i] == gs[i];
      if x.grade.value > m.grade.value then x else m
  }

  function WorstOf(gs: seq<Enrollment>): (r: Enrollment)
    requires gs != [] && AllGraded(gs)
    ensures r in gs && r.grade.Some?
    ensures forall i :: 0 <= i < |gs| ==> r.grade.value <= gs[i].grade.value
    ensures exists k :: 0 <= k < |gs| && gs[k] == r
                        && forall j :: 0 <= j < k ==> r.grade.value < gs[j].grade.value
    decreases |gs|
  {
    if |gs| == 1 then gs[0]
    else
      var init := gs[..|gs| - 1];
      var m := WorstOf(init);
      var x := gs[|gs| - 1];
      assert forall i :: 0 <= i < |init| ==> init[i] == gs[i];
      if x.grade.value < m.grade.value then x else m
  }

  /**
   * The k-th graded enrollment sits at some position m of `es`, and every
   * graded enrollment before position m is one of the first k graded ones.
   */
  lemma {:induction false} GradedIndex(es: seq<Enrollment>, k: int) returns (m: int)
    requires 0 <= k < |Graded(es)|
    ensures 0 <= m < |es| && es[m] == Graded(es)[k]
    ensures forall j :: 0 <= j < m && es[j].grade.Some? ==> es[j] in Graded(es)[..k]
    decreases |es|
  {
    var gs, tail := Graded(es), Graded(es[1..]);
    if es[0].grade.Some? {
      assert gs == [es[0]] + tail;
      if k == 0 {
        m := 0;
      } else {
        var m' := GradedIndex(es[1..], k - 1);
        assert gs[..k] == [es[0]] + tail[..k - 1];
        m := m' + 1;
        forall j | 0 <= j < m && es[j].grade.Some?
          ensures es[j] in gs[..k]
        {
          if j > 0 {
            assert es[j] == es[1..][j - 1];
          }
        }
      }
    } else {
      assert gs == tail;
      var m' := GradedIndex(es[1..], k);
      m := m' + 1;
      forall j | 0 <= j < m && es[j].grade.Some?
        ensures es[j] in gs[..k]
      {
        assert es[j] == es[1..][j - 1];
      }
    }
  }

  /** The enrollment with the best grade; None when nothing is graded. */
  function BestGrade(es: seq<Enrollment>): (r: Option<Enrollment>)
    ensures r.None? <==> forall e :: e in es ==> e.grade.None?
    ensures r.Some? ==> r.value in es && r.value.grade.Some?
                        && forall e :: e in es && e.grade.Some? ==> e.grade.value <= r.value.grade.value
    ensures r.Some? ==> exists m :: 0 <= m < |es| && es[m] == r.value
                                    && forall j :: 0 <= j < m && es[j].grade.Some? ==> es[j].grade.value < r.value.grade.value
  {
    var gs := Graded(es);
    if gs == [] then None
    else
      var b := BestOf(gs);
      assert forall e :: e in es && e.grade.Some? ==> exists i :: 0 <= i < |gs| && gs[i] == e;
      assert exists m :: 0 <= m < |es| && es[m] == b
                         && forall j :: 0 <= j < m && es[j].grade.Some? ==> es[j].grade.value < b.grade.value by {
        var k :| 0 <= k < |gs| && gs[k] == b && forall j :: 0 <= j < k ==> gs[j].grade.value < b.grade.value;
        var m := GradedIndex(es, k);
      }
      Some(b)
  }

  /** The enrollment with the worst grade; None when nothing is graded. */
  function WorstGrade(es: seq<Enrollment>): (r: Option<Enrollment>)
    ensures r.None? <==> forall e :: e in es ==> e.grade.None?
    ensures r.Some? ==> r.value in es && r.value.grade.Some?
                        && forall e :: e in es && e.grade.Some? ==> r.value.grade.value <= e.grade.value
    ensures r.Some? ==> exists m :: 0 <= m < |es| && es[m] == r.value
                                    && forall j :: 0 <= j < m && es[j].grade.Some? ==> r.value.grade.value < es[j].grade.value
  {
    var gs := Graded(es);
    if gs == [] then None
    else
      var w := WorstOf(gs);
      assert forall e :: e in es && e.grade.Some? ==> exists i :: 0 <= i < |gs| && gs[i] == e;
      assert exists m :: 0 <= m < |es| && es[m] == w
                         && forall j :: 0 <= j < m && es[j].grade.Some? ==> w.grade.value < es[j].grade.value by {
        var k :| 0 <= k < |gs| && gs[k] == w && forall j :: 0 <= j < k ==> w.grade.value < gs[j].grade.value;
        var m := GradedIndex(es, k);
      }
      Some(w)
  }

  /** Ties: of two equal best grades the earlier enrollment is reported. */
  lemma BestTieGoesToFirst(a: Enrollment, b: Enrollment)
    requires a.grade.Some? && b.grade == a.grade && a != b
    ensures BestGrade([a, b]) == Some(a)
    ensures WorstGrade([a, b]) == Some(a)
  {
    assert Graded([a, b]) == [a, b] by {
      assert [a, b][1..] == [b];
    }
    var gs := [a, b];
    var r := BestOf(gs);
    var k :| 0 <= k < |gs| && gs[k] == r && forall j :: 0 <= j < k ==> gs[j].grade.value < r.grade.value;
    assert k == 0;
    var w := WorstOf(gs);
    var k' :| 0 <= k' < |gs| && gs[k'] == w && forall j :: 0 <= j < k' ==> w.grade.value < gs[j].grade.value;
    assert k' == 0;
  }

  /**
   * The best answer's label, by band. Note that the lowest band, every best
   * grade under 80, is called "Excelente".
   */
  function BestGradeLabel(g: real): (name: string)
    ensures name == "Sobresaliente" <==> g >= 90.0
    ensures name == "Muy bueno" <==> 80.0 <= g < 90.0
    ensures name == "Excelente" <==> g < 80.0
  {
    if g >= 90.0 then "Sobresaliente"
    else if g >= 80.0 then "Muy bueno"
    else "Excelente"
  }

  /** The enrollments `generateRoadmapResponse` plans for: graded and under 70. */
  function LowGrades(es: seq<Enrollment>): (r: seq<Enrollment>)
    ensures AllGraded(r)
    ensures forall e :: e in r <==> e in es && e.grade.Some? && e.grade.value < 70.0
  {
    if es == [] then []
    else if es[0].grade.Some? && es[0].grade.value < 70.0 then [es[0]] + LowGrades(es[1..])
    else LowGrades(es[1..])
  }

  // ---------------------------------------------------------------------
  // Per-subject improvement plan (`generateSubjectRoadmap`)
  // ---------------------------------------------------------------------

  /** `Math.ceil` on a real. */
  function Ceil(x: real): (n: int)
    ensures n as real - 1.0 < x <= n as real
  {
    -((-x).Floor)
  }

  datatype SubjectRoadmap = SubjectRoadmap(
    subject: string, pointsNeeded: real, weeks: int, consolidation: bool)

  /** Points to 70, weeks at five points a week, and a fifth phase beyond four weeks. */
  function SubjectRoadmapOf(subject: string, grade: real): (r: SubjectRoadmap)
    ensures r.subject == subject && r.pointsNeeded == 70.0 - grade
    ensures r.weeks as real - 1.0 < r.pointsNeeded / 5.0 <= r.weeks as real
    ensures r.consolidation <==> r.weeks > 4
  {
    var points := 70.0 - grade;
    var weeks := Ceil(points / 5.0);
    SubjectRoadmap(subject, points, weeks, weeks > 4)
  }

  /** A failing grade needs at least one week; the fifth phase appears exactly below 50. */
  lemma RoadmapShape(subject: string, grade: real)
    requires grade < 70.0
    ensures SubjectRoadmapOf(subject, grade).weeks >= 1
    ensures SubjectRoadmapOf(subject, grade).consolidation <==> grade < 50.0
  {
    var r := SubjectRoadmapOf(subject, grade);
    if grade < 50.0 {
      assert r.pointsNeeded / 5.0 > 4.0;
    } else {
      assert r.pointsNeeded / 5.0 <= 4.0;
    }
  }

  // ---------------------------------------------------------------------
  // Grouping by career (`generateGeneralResponse`)
  // ---------------------------------------------------------------------

  function CareerOf(e: Enrollment): string {
    OrDefault(e.career, "Sin carrera")
  }

  datatype Group = Group(career: string, members: seq<Enrollment>)

  function Careers(gs: seq<Group>): (r: seq<string>)
    ensures |r| == |gs| && forall k :: 0 <= k < |gs| ==> r[k] == gs[k].career
  {
    if gs == [] then [] else [gs[0].career] + Careers(gs[1..])
  }

  /** The index of the group for `career`, or |gs| when there is none. */
  function GroupIndex(gs: seq<Group>, career: string): (k: int)
    ensures 0 <= k <= |gs|
    ensures k < |gs| ==> gs[k].career == career
    ensures forall j :: 0 <= j < k ==> gs[j].career != career
  {
    if gs == [] then 0
    else if gs[0].career == career then 0
    else 1 + GroupIndex(gs[1..], career)
  }

  /** One step of the `Map`: a new career opens a group at the end. */
  function AddToGroups(gs: seq<Group>, e: Enrollment): seq<Group> {
    var k := GroupIndex(gs, CareerOf(e));
    if k == |gs| then gs + [Group(CareerOf(e), [e])]
    else gs[k := Group(gs[k].career, gs[k].members + [e])]
  }

  /** The groups after inserting the enrollments in order. */
  function CareerGroups(es: seq<Enrollment>): seq<Group>
    decreases |es|
  {
    if es == [] then [] else AddToGroups(CareerGroups(es[..|es| - 1]), es[|es| - 1])
  }

  /** The enrollments of one career, in their original order. */
  function InCareer(es: seq<Enrollment>, career: string): (r: seq<Enrollment>)
    ensures forall e :: e in r <==> e in es && CareerOf(e) == career
  {
    if es == [] then []
    else
      var init := InCareer(es[..|es| - 1], career);
      var last := es[|es| - 1];
      assert forall e :: e in es <==> e in es[..|es| - 1] || e == last;
      if CareerOf(last) == career then init + [last] else init
  }

  predicate Distinct(xs: seq<string>) {
    forall i, j :: 0 <= i < j < |xs| ==> xs[i] != xs[j]
  }

  lemma GroupIndexIsMembership(gs: seq<Group>, c: string)
    ensures GroupIndex(gs, c) < |gs| <==> c in Careers(gs)
  {
    var k := GroupIndex(gs, c);
    if c in Careers(gs) {
      var j :| 0 <= j < |gs| && Careers(gs)[j] == c;
      assert k <= j;
    }
  }

  lemma CareersOfAdd(gs: seq<Group>, e: Enrollment)
    ensures Careers(AddToGroups(gs, e)) ==
      if CareerOf(e) in Careers(gs) then Careers(gs) else Careers(gs) + [CareerOf(e)]
  {
    GroupIndexIsMembership(gs, CareerOf(e));
  }

  lemma InCareerSnoc(es: seq<Enrollment>, c: string)
    requires es != []
    ensures InCareer(es, c) ==
      if CareerOf(es[|es| - 1]) == c then InCareer(es[..|es| - 1], c) + [es[|es| - 1]]
      else InCareer(es[..|es| - 1], c)
  {
  }

  /** Each career has exactly one group. */
  lemma {:induction false} CareerGroupsDistinct(es: seq<Enrollment>)
    ensures Distinct(Careers(CareerGroups(es)))
    decreases |es|
  {
    if es != [] {
      var gs := CareerGroups(es[..|es| - 1]);
      CareerGroupsDistinct(es[..|es| - 1]);
      CareersOfAdd(gs, es[|es| - 1]);
    }
  }

  /** The groups are the careers that occur, `Sin carrera` standing for a missing one. */
  lemma {:induction false} CareerGroupsCover(es: seq<Enrollment>)
    ensures forall c :: c in Careers(CareerGroups(es)) <==> exists e :: e in es && CareerOf(e) == c
    decreases |es|
  {
    if es != [] {
      var init := es[..|es| - 1];
      CareerGroupsCover(init);
      CareersOfAdd(CareerGroups(init), es[|es| - 1]);
      assert forall x :: x in es <==> x in init || x == es[|es| - 1];
    }
  }

  predicate GroupsMatch(gs: seq<Group>, es: seq<Enrollment>) {
    forall k :: 0 <= k < |gs| ==> gs[k].members == InCareer(es, gs[k].career) && gs[k].members != []
  }

  lemma InCareerEmpty(es: seq<Enrollment>, c: string)
    requires forall x :: x in es ==> CareerOf(x) != c
    ensures InCareer(es, c) == []
  {
    if InCareer(es, c) != [] {
      assert InCareer(es, c)[0] in InCareer(es, c);
    }
  }

  lemma AddToGroupsMatch(gs: seq<Group>, init: seq<Enrollment>, e: Enrollment)
    requires GroupsMatch(gs, init) && Distinct(Careers(gs))
    requires CareerOf(e) in Careers(gs) <==> exists x :: x in init && CareerOf(x) == CareerOf(e)
    ensures GroupsMatch(AddToGroups(gs, e), init + [e])
  {
    var es := init + [e];
    var c := CareerOf(e);
    assert es[..|es| - 1] == init;
    GroupIndexIsMembership(gs, c);
    var k := GroupIndex(gs, c);
    var gs' := AddToGroups(gs, e);
    forall j | 0 <= j < |gs'|
      ensures gs'[j].members == InCareer(es, gs'[j].career) && gs'[j].members != []
    {
      InCareerSnoc(es, gs'[j].career);
      if j == |gs| {
        InCareerEmpty(init, c);
      } else if j != k {
        assert Careers(gs)[j] == gs[j].career;
        assert gs[j].career != c;
      }
    }
  }

  /** A career's group holds exactly that career's enrollments, in their order. */
  lemma {:induction false} CareerGroupsMembers(es: seq<Enrollment>)
    ensures GroupsMatch(CareerGroups(es), es)
    decreases |es|
  {
    if es != [] {
      var init := es[..|es| - 1];
      var e := es[|es| - 1];
      CareerGroupsMembers(init);
      CareerGroupsCover(init);
      CareerGroupsDistinct(init);
      assert es == init + [e];
      AddToGroupsMatch(CareerGroups(init), init, e);
    }
  }

  /** `generateGeneralResponse`'s grouping loop. */
  method GroupByCareer(es: seq<Enrollment>) returns (groups: seq<Group>)
    ensures groups == CareerGroups(es)
  {
    groups := [];
    var i := 0;
    while i < |es|
      invariant 0 <= i <= |es|
      invariant groups == CareerGroups(es[..i])
    {
      var e := es[i];
      var career := CareerOf(e);
      var k := 0;
      while k < |groups| && groups[k].career != career
        invariant 0 <= k <= |groups|
        invariant forall j :: 0 <= j < k ==> groups[j].career != career
      {
        k := k + 1;
      }
      assert k == GroupIndex(groups, career);
      if k == |groups| {
        groups := groups + [Group(career, [e])];
      } else {
        groups := groups[k := Group(groups[k].career, groups[k].members + [e])];
      }
      assert es[..i + 1][..i] == es[..i];
      i := i + 1;
    }
    assert es[..|es|] == es;
  }
}
