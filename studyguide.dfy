/**
 * The two line-list formatters of ChatbotService.ts: the block of search
 * links for a topic (`generateStudyLinks`) and the study-guide reply for a
 * topic or one of its subtopics (`formatStudyGuideResponse`).
 */
module StudyGuide {
  import opened Text
  import opened Records
  import opened Uri
  import opened Knowledge

  // ---------------------------------------------------------------------
  // generateStudyLinks
  // ---------------------------------------------------------------------

  const LinksHeading := "Recursos adicionales:"
  // Dafny does not look inside a string literal of fifty characters or more, so
  // each prefix is written as its label followed by its address.
  const YouTubePrefix := "- YouTube: " + "https://www.youtube.com/results?search_query="
  const ScholarPrefix := "- Google Scholar: " + "https://scholar.google.com/scholar?q="
  const KhanPrefix := "- Khan Academy: " + "https://es.khanacademy.org/" + "search?page_search_query="
  const SearchPrefix := "- Busqueda general: " + "https://www.google.com/search?q="

  /** The subject that goes into the searches: the subject when given, the topic otherwise. */
  function SearchSubject(topicName: string, materiaName: string): string {
    if materiaName != "" then materiaName else topicName
  }

  /** The five lines of `generateStudyLinks`; `materiaName` is "" when absent. */
  function StudyLinkLines(topicName: string, materiaName: string): (r: seq<string>)
    ensures |r| == 5 && r[0] == LinksHeading
  {
    var encodedTopic := EncodeURIComponent(topicName);
    var encodedMateria := EncodeURIComponent(SearchSubject(topicName, materiaName));
    [LinksHeading,
     YouTubePrefix + Join([encodedMateria, encodedTopic, "explicacion"], "+"),
     ScholarPrefix + Join([encodedMateria, encodedTopic], "+"),
     KhanPrefix + encodedTopic,
     SearchPrefix + Join([encodedMateria, encodedTopic, "ejercicios"], "+")]
  }

  /** `generateStudyLinks` */
  function GenerateStudyLinks(topicName: string, materiaName: string): string {
    Join(StudyLinkLines(topicName, materiaName), "\n")
  }

  /** The search terms of a link: the text after `prefix`, split at `+` and decoded. */
  function SearchTerms(line: string, prefix: string): Option<seq<string>> {
    if StartsWith(line, prefix) then DecodeAll(Split(line[|prefix|..], '+')) else None
  }

  function DecodeAll(parts: seq<string>): Option<seq<string>> {
    if parts == [] then Some([])
    else match DecodeURIComponent(parts[0])
      case None => None
      case Some(p) => Prepend(p, DecodeAll(parts[1..]))
  }

  lemma YouTubePrefixOneLine()
    ensures '\n' !in YouTubePrefix
  {
    assert '\n' !in "- YouTube: " && '\n' !in "https://www.youtube.com/results?search_query=";
  }

  lemma ScholarPrefixOneLine()
    ensures '\n' !in ScholarPrefix
  {
    assert '\n' !in "- Google Scholar: " && '\n' !in "https://scholar.google.com/scholar?q=";
  }

  lemma KhanPrefixOneLine()
    ensures '\n' !in KhanPrefix
  {
    assert '\n' !in "- Khan Academy: " && '\n' !in "https://es.khanacademy.org/";
    assert '\n' !in "search?page_search_query=";
  }

  lemma SearchPrefixOneLine()
    ensures '\n' !in SearchPrefix
  {
    assert '\n' !in "- Busqueda general: " && '\n' !in "https://www.google.com/search?q=";
  }

  lemma {:induction false} JoinLacks(parts: seq<string>, sep: string, c: char)
    requires c !in sep
    requires forall k :: 0 <= k < |parts| ==> c !in parts[k]
    ensures c !in Join(parts, sep)
  {
    if |parts| > 1 {
      JoinLacks(parts[1..], sep, c);
    }
  }

  /** The links block is exactly five lines, the first of them the heading. */
  lemma {:induction false} StudyLinksAreFiveLines(topicName: string, materiaName: string)
    ensures Split(GenerateStudyLinks(topicName, materiaName), '\n') == StudyLinkLines(topicName, materiaName)
    ensures |Split(GenerateStudyLinks(topicName, materiaName), '\n')| == 5
    ensures Split(GenerateStudyLinks(topicName, materiaName), '\n')[0] == LinksHeading
  {
    var lines := StudyLinkLines(topicName, materiaName);
    EncodedHasNoSeparators(topicName);
    EncodedHasNoSeparators(SearchSubject(topicName, materiaName));
    YouTubePrefixOneLine();
    ScholarPrefixOneLine();
    KhanPrefixOneLine();
    SearchPrefixOneLine();
    assert '\n' !in LinksHeading && '\n' !in "explicacion" && '\n' !in "ejercicios";
    var em, et := EncodeURIComponent(SearchSubject(topicName, materiaName)), EncodeURIComponent(topicName);
    JoinLacks([em, et, "explicacion"], "+", '\n');
    JoinLacks([em, et], "+", '\n');
    JoinLacks([em, et, "ejercicios"], "+", '\n');
    SplitJoin(lines, '\n');
  }

  function EncodeAll(xs: seq<string>): (r: seq<string>)
    ensures |r| == |xs|
    ensures forall k :: 0 <= k < |xs| ==> r[k] == EncodeURIComponent(xs[k])
  {
    seq(|xs|, k requires 0 <= k < |xs| => EncodeURIComponent(xs[k]))
  }

  /** Decoding every term of an encoded list gives back the list. */
  lemma {:induction false} DecodeAllEncodeAll(xs: seq<string>)
    ensures DecodeAll(EncodeAll(xs)) == Some(xs)
  {
    if xs != [] {
      DecodeAllEncodeAll(xs[1..]);
      EncodeRoundTrip(xs[0]);
      assert EncodeAll(xs)[1..] == EncodeAll(xs[1..]);
      assert [xs[0]] + xs[1..] == xs;
    }
  }

  /** A link made of `prefix` and `+`-joined encoded terms searches for exactly those terms. */
  lemma SearchTermsOfLink(prefix: string, terms: seq<string>)
    requires |terms| >= 1
    ensures SearchTerms(prefix + Join(EncodeAll(terms), "+"), prefix) == Some(terms)
  {
    var parts := EncodeAll(terms);
    var line := prefix + Join(parts, "+");
    forall k | 0 <= k < |parts|
      ensures '+' !in parts[k]
    {
      EncodedHasNoSeparators(terms[k]);
    }
    assert StartsWith(line, prefix);
    assert line[|prefix|..] == Join(parts, "+");
    SplitJoin(parts, '+');
    DecodeAllEncodeAll(terms);
  }

  lemma SearchWordsUnreserved()
    ensures EncodeURIComponent("explicacion") == "explicacion"
    ensures EncodeURIComponent("ejercicios") == "ejercicios"
  {
    assert forall i :: 0 <= i < |"explicacion"| ==> Unreserved("explicacion"[i]);
    assert forall i :: 0 <= i < |"ejercicios"| ==> Unreserved("ejercicios"[i]);
    EncodeUnreserved("explicacion");
    EncodeUnreserved("ejercicios");
  }

  /** A link searching for a subject, a topic and one more word. */
  lemma ThreeTermLink(prefix: string, m: string, t: string, word: string)
    requires EncodeURIComponent(word) == word
    ensures var em, et := EncodeURIComponent(m), EncodeURIComponent(t);
      SearchTerms(prefix + Join([em, et, word], "+"), prefix) == Some([m, t, word])
  {
    assert EncodeAll([m, t, word]) == [EncodeURIComponent(m), EncodeURIComponent(t), word];
    SearchTermsOfLink(prefix, [m, t, word]);
  }

  lemma TwoTermLink(prefix: string, m: string, t: string)
    ensures var em, et := EncodeURIComponent(m), EncodeURIComponent(t);
      SearchTerms(prefix + Join([em, et], "+"), prefix) == Some([m, t])
  {
    assert EncodeAll([m, t]) == [EncodeURIComponent(m), EncodeURIComponent(t)];
    SearchTermsOfLink(prefix, [m, t]);
  }

  lemma OneTermLink(prefix: string, t: string)
    ensures SearchTerms(prefix + EncodeURIComponent(t), prefix) == Some([t])
  {
    assert EncodeAll([t]) == [EncodeURIComponent(t)];
    assert Join([EncodeURIComponent(t)], "+") == EncodeURIComponent(t);
    SearchTermsOfLink(prefix, [t]);
  }

  /**
   * Each link searches for exactly the subject and the topic (and, for two
   * of them, one extra word); the Khan Academy link searches for the topic
   * alone. Without a subject, the topic takes its place.
   */
  lemma StudyLinkSearches(topicName: string, materiaName: string)
    ensures var lines := StudyLinkLines(topicName, materiaName);
      var m := SearchSubject(topicName, materiaName);
      SearchTerms(lines[1], YouTubePrefix) == Some([m, topicName, "explicacion"])
      && SearchTerms(lines[2], ScholarPrefix) == Some([m, topicName])
      && SearchTerms(lines[3], KhanPrefix) == Some([topicName])
      && SearchTerms(lines[4], SearchPrefix) == Some([m, topicName, "ejercicios"])
  {
    var m := SearchSubject(topicName, materiaName);
    SearchWordsUnreserved();
    ThreeTermLink(YouTubePrefix, m, topicName, "explicacion");
    TwoTermLink(ScholarPrefix, m, topicName);
    OneTermLink(KhanPrefix, topicName);
    ThreeTermLink(SearchPrefix, m, topicName, "ejercicios");
  }

  // ---------------------------------------------------------------------
  // formatStudyGuideResponse
  // ---------------------------------------------------------------------

  const KeyPointsHeading := "Puntos clave:"
  const PracticeHeading := "Practica sugerida:"
  const ResourcesHeading := "Recursos recomendados:"
  const ObjectivesHeading := "Objetivos de repaso:"
  const TipsHeading := "Consejos de estudio:"
  const SubtopicsHeading := "Subtemas relacionados:"

  /** `- item` for every item. */
  function Bullets(items: seq<string>): (r: seq<string>)
    ensures |r| == |items|
    ensures forall i :: 0 <= i < |items| ==> r[i] == "- " + items[i]
  {
    seq(|items|, i requires 0 <= i < |items| => "- " + items[i])
  }

  /** `- name: summary` for every subtopic. */
  function SubtopicBullets(subs: seq<SubtopicGuide>): (r: seq<string>)
    ensures |r| == |subs|
    ensures forall i :: 0 <= i < |subs| ==> r[i] == "- " + subs[i].name + ": " + subs[i].summary
  {
    seq(|subs|, i requires 0 <= i < |subs| => "- " + subs[i].name + ": " + subs[i].summary)
  }

  /** A heading, its bullets and a blank line, or nothing when there are no bullets. */
  function Section(heading: string, bullets: seq<string>): seq<string> {
    if bullets == [] then [] else [heading] + bullets + [""]
  }

  /** The sections of a reply about one subtopic. */
  function SubtopicSections(s: SubtopicGuide): seq<string> {
    Section(KeyPointsHeading, Bullets(s.keyPoints))
    + Section(PracticeHeading, Bullets(s.practiceIdeas))
    + Section(ResourcesHeading, Bullets(s.resources))
  }

  /** The sections of a reply about a whole topic. */
  function TopicSections(t: TopicGuide): seq<string> {
    Section(ObjectivesHeading, Bullets(t.objectives))
    + Section(TipsHeading, Bullets(t.studyTips))
    + Section(SubtopicsHeading, SubtopicBullets(t.subtopics))
    + Section(ResourcesHeading, Bullets(t.resources))
  }

  /** The name the reply is about: the subtopic's when one is given. */
  function GuideName(topic: TopicGuide, subtopic: Option<SubtopicGuide>): string {
    if subtopic.Some? then subtopic.value.name else topic.name
  }

  function GuideSections(topic: TopicGuide, subtopic: Option<SubtopicGuide>): seq<string> {
    if subtopic.Some? then SubtopicSections(subtopic.value) else TopicSections(topic)
  }

  /** The lines `formatStudyGuideResponse` joins. */
  function GuideLines(materia: string, topic: TopicGuide, subtopic: Option<SubtopicGuide>): seq<string> {
    var name := GuideName(topic, subtopic);
    var summary := if subtopic.Some? then subtopic.value.summary else topic.summary;
    [materia + " - " + name, "", "Resumen: " + summary, ""] + GuideSections(topic, subtopic)
    + [GenerateStudyLinks(name, materia)]
  }

  /** Appends `- item` for every item, as the `forEach` loops do. */
  method PushBullets(lines: seq<string>, items: seq<string>) returns (r: seq<string>)
    ensures r == lines + Bullets(items)
  {
    r := lines;
    for i := 0 to |items|
      invariant r == lines + Bullets(items[..i])
    {
      assert Bullets(items[..i + 1]) == Bullets(items[..i]) + ["- " + items[i]];
      r := r + ["- " + items[i]];
    }
    assert items[..|items|] == items;
  }

  method PushSubtopicBullets(lines: seq<string>, subs: seq<SubtopicGuide>) returns (r: seq<string>)
    ensures r == lines + SubtopicBullets(subs)
  {
    r := lines;
    for i := 0 to |subs|
      invariant r == lines + SubtopicBullets(subs[..i])
    {
      assert SubtopicBullets(subs[..i + 1])
          == SubtopicBullets(subs[..i]) + ["- " + subs[i].name + ": " + subs[i].summary];
      r := r + ["- " + subs[i].name + ": " + subs[i].summary];
    }
    assert subs[..|subs|] == subs;
  }

  /** Pushes a section when its list is non-empty. */
  method PushSection(lines: seq<string>, heading: string, items: seq<string>) returns (r: seq<string>)
    ensures r == lines + Section(heading, Bullets(items))
  {
    r := lines;
    if |items| > 0 {
      r := r + [heading];
      r := PushBullets(r, items);
      r := r + [""];
    }
  }

  method PushSubtopicSection(lines: seq<string>, subs: seq<SubtopicGuide>) returns (r: seq<string>)
    ensures r == lines + Section(SubtopicsHeading, SubtopicBullets(subs))
  {
    r := lines;
    if |subs| > 0 {
      r := r + [SubtopicsHeading];
      r := PushSubtopicBullets(r, subs);
      r := r + [""];
    }
  }

  /** `formatStudyGuideResponse` */
  method FormatStudyGuideResponse(materia: string, topic: TopicGuide, subtopic: Option<SubtopicGuide>)
    returns (r: string)
    ensures r == Join(GuideLines(materia, topic, subtopic), "\n")
  {
    var name := if subtopic.Some? then subtopic.value.name else topic.name;
    var lines: seq<string> := [];
    lines := lines + [materia + " - " + name];
    lines := lines + [""];
    if subtopic.Some? {
      var s := subtopic.value;
      lines := lines + ["Resumen: " + s.summary];
      lines := lines + [""];
      var head := lines;
      assert head == [materia + " - " + name, "", "Resumen: " + s.summary, ""];
      lines := PushSection(lines, KeyPointsHeading, s.keyPoints);
      lines := PushSection(lines, PracticeHeading, s.practiceIdeas);
      lines := PushSection(lines, ResourcesHeading, s.resources);
      assert lines == head + SubtopicSections(s);
    } else {
      lines := lines + ["Resumen: " + topic.summary];
      lines := lines + [""];
      var head := lines;
      assert head == [materia + " - " + name, "", "Resumen: " + topic.summary, ""];
      lines := PushSection(lines, ObjectivesHeading, topic.objectives);
      lines := PushSection(lines, TipsHeading, topic.studyTips);
      lines := PushSubtopicSection(lines, topic.subtopics);
      lines := PushSection(lines, ResourcesHeading, topic.resources);
      assert lines == head + TopicSections(topic);
    }
    lines := lines + [GenerateStudyLinks(name, materia)];
    assert lines == GuideLines(materia, topic, subtopic);
    r := Join(lines, "\n");
  }

  // ---------------------------------------------------------------------
  // What the reply promises
  // ---------------------------------------------------------------------

  lemma {:induction false} JoinSnoc(parts: seq<string>, last: string, sep: string)
    requires parts != []
    ensures Join(parts + [last], sep) == Join(parts, sep) + sep + last
  {
    if |parts| == 1 {
      assert (parts + [last])[1..] == [last];
    } else {
      assert (parts + [last])[1..] == parts[1..] + [last];
      JoinSnoc(parts[1..], last, sep);
    }
  }

  /**
   * The reply opens with "materia - name" (the subtopic's name when one is
   * given) and a blank line, and ends with the links block for that name.
   */
  lemma GuideShape(materia: string, topic: TopicGuide, subtopic: Option<SubtopicGuide>)
    ensures var lines := GuideLines(materia, topic, subtopic);
      var name := if subtopic.Some? then subtopic.value.name else topic.name;
      |lines| >= 5
      && lines[0] == materia + " - " + name && lines[1] == ""
      && Join(lines, "\n") == Join(lines[..|lines| - 1], "\n") + "\n" + GenerateStudyLinks(name, materia)
  {
    var lines := GuideLines(materia, topic, subtopic);
    var name := GuideName(topic, subtopic);
    assert lines == lines[..|lines| - 1] + [GenerateStudyLinks(name, materia)];
    JoinSnoc(lines[..|lines| - 1], GenerateStudyLinks(name, materia), "\n");
  }

  /** A line that is neither a heading nor starts like one: it carries a dash, or is the summary. */
  predicate NotHeading(line: string) {
    '-' in line || line == "" || StartsWith(line, "Resumen: ")
  }

  /** Headings carry no dash and are not blank; their third letter is not the summary's. */
  predicate IsHeading(h: string) {
    '-' !in h && |h| > 2 && h[2] != 's'
  }

  lemma HeadingNotOther(h: string, line: string)
    requires IsHeading(h) && NotHeading(line)
    ensures h != line
  {
    if StartsWith(line, "Resumen: ") {
      assert line[2] == 's';
    }
  }

  lemma BulletsNotHeadings(items: seq<string>)
    ensures forall k :: 0 <= k < |Bullets(items)| ==> NotHeading(Bullets(items)[k])
  {
    forall k | 0 <= k < |items|
      ensures '-' in Bullets(items)[k]
    {
      assert Bullets(items)[k][0] == '-';
    }
  }

  lemma SubtopicBulletsNotHeadings(subs: seq<SubtopicGuide>)
    ensures forall k :: 0 <= k < |SubtopicBullets(subs)| ==> NotHeading(SubtopicBullets(subs)[k])
  {
    forall k | 0 <= k < |subs|
      ensures '-' in SubtopicBullets(subs)[k]
    {
      assert SubtopicBullets(subs)[k][0] == '-';
    }
  }

  /** A heading is in a section exactly when it is that section's heading and the section has bullets. */
  lemma InSection(h: string, h2: string, bullets: seq<string>)
    requires forall k :: 0 <= k < |bullets| ==> NotHeading(bullets[k])
    requires IsHeading(h)
    ensures h in Section(h2, bullets) <==> h == h2 && bullets != []
  {
    if h in bullets {
      var k :| 0 <= k < |bullets| && bullets[k] == h;
      HeadingNotOther(h, bullets[k]);
    }
  }

  lemma LinksNotHeading(name: string, materia: string)
    ensures NotHeading(GenerateStudyLinks(name, materia))
  {
    var lines := StudyLinkLines(name, materia);
    var r := GenerateStudyLinks(name, materia);
    assert lines[1..][1..] == lines[2..];
    assert r == LinksHeading + "\n" + Join(lines[1..], "\n");
    assert Join(lines[1..], "\n") == lines[1] + "\n" + Join(lines[2..], "\n");
    assert r == LinksHeading + "\n" + (lines[1] + "\n" + Join(lines[2..], "\n"));
    assert lines[1] == YouTubePrefix + Join([EncodeURIComponent(SearchSubject(name, materia)), EncodeURIComponent(name), "explicacion"], "+");
    assert lines[1][0] == '-';
    assert r[|LinksHeading| + 1] == '-';
  }

  lemma HeadLinesNotHeadings(materia: string, name: string, summary: string)
    ensures NotHeading(materia + " - " + name) && NotHeading("") && NotHeading("Resumen: " + summary)
  {
    assert (materia + " - " + name)[|materia| + 1] == '-';
    assert ("Resumen: " + summary)[..9] == "Resumen: ";
  }

  /** Outside the sections the reply has no heading. */
  lemma HeadingInGuide(materia: string, topic: TopicGuide, subtopic: Option<SubtopicGuide>, h: string)
    requires IsHeading(h)
    ensures h in GuideLines(materia, topic, subtopic) <==> h in GuideSections(topic, subtopic)
  {
    var name := GuideName(topic, subtopic);
    var summary := if subtopic.Some? then subtopic.value.summary else topic.summary;
    HeadLinesNotHeadings(materia, name, summary);
    LinksNotHeading(name, materia);
    HeadingNotOther(h, materia + " - " + name);
    HeadingNotOther(h, "");
    HeadingNotOther(h, "Resumen: " + summary);
    HeadingNotOther(h, GenerateStudyLinks(name, materia));
  }

  lemma HeadingsAreHeadings()
    ensures IsHeading(KeyPointsHeading) && IsHeading(PracticeHeading) && IsHeading(ResourcesHeading)
    ensures IsHeading(ObjectivesHeading) && IsHeading(TipsHeading) && IsHeading(SubtopicsHeading)
  {
    assert '-' !in KeyPointsHeading && '-' !in PracticeHeading;
    assert '-' !in ResourcesHeading && '-' !in ObjectivesHeading;
    assert '-' !in TipsHeading && '-' !in SubtopicsHeading;
  }

  /**
   * For a subtopic, each heading appears exactly when its list is
   * non-empty.
   */
  lemma SubtopicHeadings(materia: string, topic: TopicGuide, s: SubtopicGuide)
    ensures var lines := GuideLines(materia, topic, Some(s));
      (KeyPointsHeading in lines <==> |s.keyPoints| > 0)
      && (PracticeHeading in lines <==> |s.practiceIdeas| > 0)
      && (ResourcesHeading in lines <==> |s.resources| > 0)
  {
    HeadingsAreHeadings();
    BulletsNotHeadings(s.keyPoints);
    BulletsNotHeadings(s.practiceIdeas);
    BulletsNotHeadings(s.resources);
    var b1, b2, b3 := Bullets(s.keyPoints), Bullets(s.practiceIdeas), Bullets(s.resources);
    HeadingInGuide(materia, topic, Some(s), KeyPointsHeading);
    InSection(KeyPointsHeading, KeyPointsHeading, b1);
    InSection(KeyPointsHeading, PracticeHeading, b2);
    InSection(KeyPointsHeading, ResourcesHeading, b3);
    HeadingInGuide(materia, topic, Some(s), PracticeHeading);
    InSection(PracticeHeading, KeyPointsHeading, b1);
    InSection(PracticeHeading, PracticeHeading, b2);
    InSection(PracticeHeading, ResourcesHeading, b3);
    HeadingInGuide(materia, topic, Some(s), ResourcesHeading);
    InSection(ResourcesHeading, KeyPointsHeading, b1);
    InSection(ResourcesHeading, PracticeHeading, b2);
    InSection(ResourcesHeading, ResourcesHeading, b3);
  }

  /**
   * For a whole topic, each heading appears exactly when its list is
   * non-empty.
   */
  lemma TopicHeadings(materia: string, topic: TopicGuide)
    ensures var lines := GuideLines(materia, topic, None);
      (ObjectivesHeading in lines <==> |topic.objectives| > 0)
      && (TipsHeading in lines <==> |topic.studyTips| > 0)
      && (SubtopicsHeading in lines <==> |topic.subtopics| > 0)
      && (ResourcesHeading in lines <==> |topic.resources| > 0)
  {
    HeadingsAreHeadings();
    BulletsNotHeadings(topic.objectives);
    BulletsNotHeadings(topic.studyTips);
    SubtopicBulletsNotHeadings(topic.subtopics);
    BulletsNotHeadings(topic.resources);
    var b1, b2 := Bullets(topic.objectives), Bullets(topic.studyTips);
    var b3, b4 := SubtopicBullets(topic.subtopics), Bullets(topic.resources);
    HeadingInGuide(materia, topic, None, ObjectivesHeading);
    InSection(ObjectivesHeading, ObjectivesHeading, b1);
    InSection(ObjectivesHeading, TipsHeading, b2);
    InSection(ObjectivesHeading, SubtopicsHeading, b3);
    InSection(ObjectivesHeading, ResourcesHeading, b4);
    HeadingInGuide(materia, topic, None, TipsHeading);
    InSection(TipsHeading, ObjectivesHeading, b1);
    InSection(TipsHeading, TipsHeading, b2);
    InSection(TipsHeading, SubtopicsHeading, b3);
    InSection(TipsHeading, ResourcesHeading, b4);
    HeadingInGuide(materia, topic, None, SubtopicsHeading);
    InSection(SubtopicsHeading, ObjectivesHeading, b1);
    InSection(SubtopicsHeading, TipsHeading, b2);
    InSection(SubtopicsHeading, SubtopicsHeading, b3);
    InSection(SubtopicsHeading, ResourcesHeading, b4);
    HeadingInGuide(materia, topic, None, ResourcesHeading);
    InSection(ResourcesHeading, ObjectivesHeading, b1);
    InSection(ResourcesHeading, TipsHeading, b2);
    InSection(ResourcesHeading, SubtopicsHeading, b3);
    InSection(ResourcesHeading, ResourcesHeading, b4);
  }
}
