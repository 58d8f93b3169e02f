/**
 * Building the per-subject syllabus from the enrollments and the raw
 * syllabus records (geminiService.ts `getSyllabusDataForUser`).
 *
 * For each enrollment with a subject name, the records whose subject is
 * equivalent (and whose section matches when both carry one) are merged
 * into the entry keyed by the normalised subject name, creating the entry
 * on first use.  Merging is stable: untitled topics are skipped, a topic
 * equivalent to one already present fills in a missing description and
 * appends the subtopics not yet present, any other topic is appended.
 *
 * Every definition takes the string normalisation `norm` as a parameter:
 * the service uses `normalizeText` (`NormalizeText`), and nothing proved
 * here depends on how it normalises, only on two names being equivalent
 * when both are non-empty and normalise alike.
 *
 * The specification is a left fold written with last-element recursion,
 * so that each loop of the methods below keeps "the state is the fold over
 * the prefix seen so far" as its invariant.
 */
module Aggregation {
  import opened Text
  import opened Records

  /** `areStringsEquivalent` for the normalisation `norm`. */
  predicate Same(norm: string -> string, a: string, b: string) {
    |a| > 0 && |b| > 0 && norm(a) == norm(b)
  }

  /** With the service's normalisation this is `Equivalent`. */
  lemma SameIsEquivalent(a: string, b: string)
    ensures Same(NormalizeText, a, b) == Equivalent(a, b)
  {
  }

  // ---------------------------------------------------------------------
  // Which records belong to an enrollment
  // ---------------------------------------------------------------------

  /** The filter of `getSyllabusDataForUser`. */
  predicate Matches(norm: string -> string, e: Enrollment, item: RawSyllabus) {
    item.subject != ""
    && Same(norm, item.subject, e.subject)
    && (Truthy(e.sectionId) && Truthy(item.sectionId) ==> item.sectionId == e.sectionId)
  }

  function MatchingRecords(norm: string -> string, e: Enrollment, raw: seq<RawSyllabus>): seq<RawSyllabus> {
    if raw == [] then []
    else
      var rest := MatchingRecords(norm, e, raw[..|raw| - 1]);
      if Matches(norm, e, raw[|raw| - 1]) then rest + [raw[|raw| - 1]] else rest
  }

  /** The filter keeps exactly the matching records. */
  lemma {:induction false} MatchingRecordsMembers(norm: string -> string, e: Enrollment, raw: seq<RawSyllabus>)
    ensures forall x :: x in MatchingRecords(norm, e, raw) <==> x in raw && Matches(norm, e, x)
    decreases |raw|
  {
    if raw != [] {
      assert raw == raw[..|raw| - 1] + [raw[|raw| - 1]];
      MatchingRecordsMembers(norm, e, raw[..|raw| - 1]);
    }
  }

  lemma {:induction false} MatchingAppend(norm: string -> string, e: Enrollment, a: seq<RawSyllabus>, b: seq<RawSyllabus>)
    ensures MatchingRecords(norm, e, a + b) == MatchingRecords(norm, e, a) + MatchingRecords(norm, e, b)
    decreases |b|
  {
    if b == [] {
      assert a + b == a;
    } else {
      var b' := b[..|b| - 1];
      assert (a + b)[..|a + b| - 1] == a + b';
      assert (a + b)[|a + b| - 1] == b[|b| - 1];
      MatchingAppend(norm, e, a, b');
    }
  }

  // ---------------------------------------------------------------------
  // Subtopics
  // ---------------------------------------------------------------------

  /** `Array.isArray(tema.subtemas) ? tema.subtemas.map(...) : []` */
  function SubtopicsOf(t: RawTopic): seq<Subtopic> {
    if t.subtopics.Some? then t.subtopics.value else []
  }

  /** `subs.some(x => areStringsEquivalent(x.titulo, s.titulo))` */
  predicate HasSubtopic(norm: string -> string, subs: seq<Subtopic>, s: Subtopic) {
    exists j :: 0 <= j < |subs| && Same(norm, subs[j].title, s.title)
  }

  lemma HasSubtopicPrefix(norm: string -> string, a: seq<Subtopic>, b: seq<Subtopic>, s: Subtopic)
    requires a <= b && HasSubtopic(norm, a, s)
    ensures HasSubtopic(norm, b, s)
  {
    var j :| 0 <= j < |a| && Same(norm, a[j].title, s.title);
    assert b[j] == a[j];
  }

  /** A titled subtopic is present in any list that holds it. */
  lemma HasOwnSubtopic(norm: string -> string, subs: seq<Subtopic>, j: int)
    requires 0 <= j < |subs| && subs[j].title != ""
    ensures HasSubtopic(norm, subs, subs[j])
  {
  }

  /**
   * The subtopic merge: each incoming subtopic is appended unless one
   * with an equivalent title is already present (including those
   * appended earlier in the same merge).
   */
  function MergeSubtopics(norm: string -> string, existing: seq<Subtopic>, incoming: seq<Subtopic>): (r: seq<Subtopic>)
    ensures existing <= r
    ensures forall x :: x in r ==> x in existing || x in incoming
    decreases |incoming|
  {
    if incoming == [] then existing
    else
      var acc := MergeSubtopics(norm, existing, incoming[..|incoming| - 1]);
      var s := incoming[|incoming| - 1];
      if HasSubtopic(norm, acc, s) then acc else acc + [s]
  }

  /** Each appended subtopic had no equivalent before it. */
  predicate AppendsOnlyNew(norm: string -> string, existing: seq<Subtopic>, r: seq<Subtopic>) {
    forall k :: |existing| <= k < |r| ==> !HasSubtopic(norm, r[..k], r[k])
  }

  lemma {:induction false} MergeSubtopicsAppendsOnlyNew(norm: string -> string, existing: seq<Subtopic>, incoming: seq<Subtopic>)
    ensures AppendsOnlyNew(norm, existing, MergeSubtopics(norm, existing, incoming))
    decreases |incoming|
  {
    if incoming != [] {
      var acc := MergeSubtopics(norm, existing, incoming[..|incoming| - 1]);
      var s := incoming[|incoming| - 1];
      MergeSubtopicsAppendsOnlyNew(norm, existing, incoming[..|incoming| - 1]);
      if HasSubtopic(norm, acc, s) {
        assert MergeSubtopics(norm, existing, incoming) == acc;
      } else {
        var r := acc + [s];
        assert MergeSubtopics(norm, existing, incoming) == r;
        forall k | |existing| <= k < |r|
          ensures !HasSubtopic(norm, r[..k], r[k])
        {
          if k < |acc| {
            assert !HasSubtopic(norm, acc[..k], acc[k]);
            assert r[..k] == acc[..k] && r[k] == acc[k];
          } else {
            assert k == |acc|;
            assert r[..k] == acc && r[k] == s;
          }
        }
      }
    }
  }

  /** Afterwards every titled incoming subtopic has an equivalent. */
  lemma {:induction false} MergeSubtopicsHasAll(norm: string -> string, existing: seq<Subtopic>, incoming: seq<Subtopic>)
    ensures var r := MergeSubtopics(norm, existing, incoming);
      forall j :: 0 <= j < |incoming| && incoming[j].title != "" ==> HasSubtopic(norm, r, incoming[j])
    decreases |incoming|
  {
    if incoming != [] {
      var init := incoming[..|incoming| - 1];
      var acc := MergeSubtopics(norm, existing, init);
      MergeSubtopicsHasAll(norm, existing, init);
      var r := MergeSubtopics(norm, existing, incoming);
      forall j | 0 <= j < |incoming| && incoming[j].title != ""
        ensures HasSubtopic(norm, r, incoming[j])
      {
        if j < |init| {
          assert incoming[j] == init[j];
          HasSubtopicPrefix(norm, acc, r, incoming[j]);
        } else if r != acc {
          HasOwnSubtopic(norm, r, |acc|);
        }
      }
    }
  }

  /** Subtopics that are all present already change nothing. */
  lemma {:induction false} MergeSubtopicsPresent(norm: string -> string, existing: seq<Subtopic>, incoming: seq<Subtopic>)
    requires forall j :: 0 <= j < |incoming| ==> HasSubtopic(norm, existing, incoming[j])
    ensures MergeSubtopics(norm, existing, incoming) == existing
    decreases |incoming|
  {
    if incoming != [] {
      MergeSubtopicsPresent(norm, existing, incoming[..|incoming| - 1]);
    }
  }

  // ---------------------------------------------------------------------
  // Topics
  // ---------------------------------------------------------------------

  /** `temas.find(item => areStringsEquivalent(item.titulo, title))`, as an index. */
  function FirstEquivalent(norm: string -> string, ts: seq<Topic>, title: string): (k: int)
    ensures -1 <= k < |ts|
  {
    if ts == [] then -1
    else if Same(norm, ts[0].title, title) then 0
    else
      var k := FirstEquivalent(norm, ts[1..], title);
      if k == -1 then -1 else k + 1
  }

  /** -1 when no topic is equivalent, otherwise the first equivalent one. */
  lemma {:induction false} FirstEquivalentFacts(norm: string -> string, ts: seq<Topic>, title: string)
    ensures FirstEquivalent(norm, ts, title) == -1 <==> forall i :: 0 <= i < |ts| ==> !Same(norm, ts[i].title, title)
    ensures var k := FirstEquivalent(norm, ts, title);
      k >= 0 ==> Same(norm, ts[k].title, title) && forall i :: 0 <= i < k ==> !Same(norm, ts[i].title, title)
  {
    if ts != [] && !Same(norm, ts[0].title, title) {
      FirstEquivalentFacts(norm, ts[1..], title);
      assert forall i :: 1 <= i < |ts| ==> ts[1..][i - 1] == ts[i];
    }
  }

  lemma FirstEquivalentAt(norm: string -> string, ts: seq<Topic>, title: string, k: int)
    requires 0 <= k < |ts| && Same(norm, ts[k].title, title)
    requires forall i :: 0 <= i < k ==> !Same(norm, ts[i].title, title)
    ensures FirstEquivalent(norm, ts, title) == k
  {
    FirstEquivalentFacts(norm, ts, title);
  }

  /** The topic pushed for a title seen for the first time. */
  function NewTopic(t: RawTopic): Topic {
    Topic(t.id, t.title, t.description, t.week, t.order, SubtopicsOf(t))
  }

  /** An existing topic after absorbing an equivalent incoming one. */
  function Absorb(norm: string -> string, existing: Topic, t: RawTopic): Topic {
    existing.(description := if existing.description == "" && t.description != "" then t.description
                             else existing.description,
              subtopics := MergeSubtopics(norm, existing.subtopics, SubtopicsOf(t)))
  }

  /** `b[i]` is `a[i]` after some merges: same identity, description kept once set, subtopics only appended. */
  predicate Grows(a: Topic, b: Topic) {
    b.id == a.id && b.title == a.title && b.week == a.week && b.order == a.order
    && (a.description != "" ==> b.description == a.description)
    && a.subtopics <= b.subtopics
  }

  /** Nothing is removed or reordered, and every old topic only grows. */
  predicate Extends(a: seq<Topic>, b: seq<Topic>) {
    |a| <= |b| && forall i :: 0 <= i < |a| ==> Grows(a[i], b[i])
  }

  lemma ExtendsTransitive(a: seq<Topic>, b: seq<Topic>, c: seq<Topic>)
    requires Extends(a, b) && Extends(b, c)
    ensures Extends(a, c)
  {
    forall i | 0 <= i < |a|
      ensures Grows(a[i], c[i])
    {
      assert a[i].subtopics == b[i].subtopics[..|a[i].subtopics|];
      assert b[i].subtopics == c[i].subtopics[..|b[i].subtopics|];
    }
  }

  /** Merging one raw topic into the topic list of an entry. */
  function MergeTopic(norm: string -> string, ts: seq<Topic>, t: RawTopic): seq<Topic> {
    if t.title == "" then ts
    else
      var k := FirstEquivalent(norm, ts, t.title);
      if k == -1 then ts + [NewTopic(t)] else ts[k := Absorb(norm, ts[k], t)]
  }

  /**
   * One merge keeps every topic in place, skips an untitled topic, and
   * adds a topic exactly when no topic with an equivalent title exists.
   */
  lemma MergeTopicFacts(norm: string -> string, ts: seq<Topic>, t: RawTopic)
    ensures Extends(ts, MergeTopic(norm, ts, t))
    ensures t.title == "" ==> MergeTopic(norm, ts, t) == ts
    ensures |MergeTopic(norm, ts, t)| == |ts| + 1 <==> t.title != "" && FirstEquivalent(norm, ts, t.title) == -1
    ensures |MergeTopic(norm, ts, t)| != |ts| + 1 ==> |MergeTopic(norm, ts, t)| == |ts|
    ensures |MergeTopic(norm, ts, t)| == |ts| + 1 ==> MergeTopic(norm, ts, t)[|ts|] == NewTopic(t)
  {
    if t.title != "" {
      var k := FirstEquivalent(norm, ts, t.title);
      if k != -1 {
        assert Grows(ts[k], Absorb(norm, ts[k], t));
      }
    }
  }

  /** The raw topics merged in order. */
  function MergeTopics(norm: string -> string, ts: seq<Topic>, raws: seq<RawTopic>): seq<Topic>
    decreases |raws|
  {
    if raws == [] then ts
    else MergeTopic(norm, MergeTopics(norm, ts, raws[..|raws| - 1]), raws[|raws| - 1])
  }

  lemma {:induction false} MergeTopicsExtends(norm: string -> string, ts: seq<Topic>, raws: seq<RawTopic>)
    ensures Extends(ts, MergeTopics(norm, ts, raws))
    decreases |raws|
  {
    if raws != [] {
      var acc := MergeTopics(norm, ts, raws[..|raws| - 1]);
      MergeTopicsExtends(norm, ts, raws[..|raws| - 1]);
      MergeTopicFacts(norm, acc, raws[|raws| - 1]);
      ExtendsTransitive(ts, acc, MergeTopics(norm, ts, raws));
    }
  }

  lemma {:induction false} MergeTopicsAppend(norm: string -> string, ts: seq<Topic>, a: seq<RawTopic>, b: seq<RawTopic>)
    ensures MergeTopics(norm, ts, a + b) == MergeTopics(norm, MergeTopics(norm, ts, a), b)
    decreases |b|
  {
    if b == [] {
      assert a + b == a;
    } else {
      assert (a + b)[..|a + b| - 1] == a + b[..|b| - 1];
      assert (a + b)[|a + b| - 1] == b[|b| - 1];
      MergeTopicsAppend(norm, ts, a, b[..|b| - 1]);
    }
  }

  /** The topics of the records whose `temas` is an array, in order. */
  function TopicsOf(records: seq<RawSyllabus>): seq<RawTopic> {
    if records == [] then []
    else
      var last := records[|records| - 1];
      TopicsOf(records[..|records| - 1]) + (if last.topics.Some? then last.topics.value else [])
  }

  lemma {:induction false} TopicsOfAppend(a: seq<RawSyllabus>, b: seq<RawSyllabus>)
    ensures TopicsOf(a + b) == TopicsOf(a) + TopicsOf(b)
    decreases |b|
  {
    if b == [] {
      assert a + b == a;
    } else {
      assert (a + b)[..|a + b| - 1] == a + b[..|b| - 1];
      assert (a + b)[|a + b| - 1] == b[|b| - 1];
      TopicsOfAppend(a, b[..|b| - 1]);
    }
  }

  lemma {:induction false} TopicsOfMember(records: seq<RawSyllabus>, t: RawTopic)
    requires t in TopicsOf(records)
    ensures exists x :: x in records && x.topics.Some? && t in x.topics.value
    decreases |records|
  {
    var last := records[|records| - 1];
    if t in TopicsOf(records[..|records| - 1]) {
      TopicsOfMember(records[..|records| - 1], t);
    } else {
      assert last in records;
    }
  }

  /** The matched records merged into an entry's topics. */
  function MergeRecords(norm: string -> string, ts: seq<Topic>, records: seq<RawSyllabus>): seq<Topic> {
    MergeTopics(norm, ts, TopicsOf(records))
  }

  // ---------------------------------------------------------------------
  // Invariants of the topic list
  // ---------------------------------------------------------------------

  /** Every topic has a title. */
  predicate Titled(ts: seq<Topic>) {
    forall i :: 0 <= i < |ts| ==> ts[i].title != ""
  }

  /** No two topics have equivalent titles. */
  predicate DistinctTitles(norm: string -> string, ts: seq<Topic>) {
    forall i, j :: 0 <= i < j < |ts| ==> !Same(norm, ts[i].title, ts[j].title)
  }

  lemma {:induction false} MergeTopicsKeepsInvariants(norm: string -> string, ts: seq<Topic>, raws: seq<RawTopic>)
    requires Titled(ts) && DistinctTitles(norm, ts)
    ensures Titled(MergeTopics(norm, ts, raws)) && DistinctTitles(norm, MergeTopics(norm, ts, raws))
    decreases |raws|
  {
    if raws != [] {
      var acc := MergeTopics(norm, ts, raws[..|raws| - 1]);
      MergeTopicsKeepsInvariants(norm, ts, raws[..|raws| - 1]);
      MergeTopicFacts(norm, acc, raws[|raws| - 1]);
      if raws[|raws| - 1].title != "" {
        FirstEquivalentFacts(norm, acc, raws[|raws| - 1].title);
      }
    }
  }

  // ---------------------------------------------------------------------
  // Merging the same records twice changes nothing
  // ---------------------------------------------------------------------

  /** Every subtopic has a title (an untitled one is never equivalent to anything). */
  predicate SubtopicsTitled(raws: seq<RawTopic>) {
    forall i :: 0 <= i < |raws| ==> OwnSubtopicsTitled(raws[i])
  }

  predicate OwnSubtopicsTitled(t: RawTopic) {
    forall j :: 0 <= j < |SubtopicsOf(t)| ==> SubtopicsOf(t)[j].title != ""
  }

  /** A topic already holds what `t` would add to it. */
  predicate Absorbed(norm: string -> string, T: Topic, t: RawTopic) {
    (t.description != "" ==> T.description != "")
    && forall j :: 0 <= j < |SubtopicsOf(t)| ==> HasSubtopic(norm, T.subtopics, SubtopicsOf(t)[j])
  }

  /** Merging `t` into `ts` would change nothing. */
  predicate Covers(norm: string -> string, ts: seq<Topic>, t: RawTopic) {
    t.title == "" || (FirstEquivalent(norm, ts, t.title) >= 0 && Absorbed(norm, ts[FirstEquivalent(norm, ts, t.title)], t))
  }

  lemma CoveredMergeIsIdentity(norm: string -> string, ts: seq<Topic>, t: RawTopic)
    requires Covers(norm, ts, t)
    ensures MergeTopic(norm, ts, t) == ts
  {
    if t.title != "" {
      var k := FirstEquivalent(norm, ts, t.title);
      MergeSubtopicsPresent(norm, ts[k].subtopics, SubtopicsOf(t));
      assert Absorb(norm, ts[k], t) == ts[k];
    }
  }

  lemma CoversGrows(norm: string -> string, ts: seq<Topic>, r: seq<Topic>, t: RawTopic)
    requires Covers(norm, ts, t) && Extends(ts, r)
    ensures Covers(norm, r, t)
  {
    if t.title != "" {
      var k := FirstEquivalent(norm, ts, t.title);
      FirstEquivalentFacts(norm, ts, t.title);
      FirstEquivalentAt(norm, r, t.title, k);
      forall j | 0 <= j < |SubtopicsOf(t)|
        ensures HasSubtopic(norm, r[k].subtopics, SubtopicsOf(t)[j])
      {
        HasSubtopicPrefix(norm, ts[k].subtopics, r[k].subtopics, SubtopicsOf(t)[j]);
      }
    }
  }

  lemma MergeTopicCovers(norm: string -> string, ts: seq<Topic>, t: RawTopic)
    requires OwnSubtopicsTitled(t)
    ensures Covers(norm, MergeTopic(norm, ts, t), t)
  {
    if t.title != "" {
      var r := MergeTopic(norm, ts, t);
      var k := FirstEquivalent(norm, ts, t.title);
      FirstEquivalentFacts(norm, ts, t.title);
      MergeTopicFacts(norm, ts, t);
      if k == -1 {
        FirstEquivalentAt(norm, r, t.title, |ts|);
        forall j | 0 <= j < |SubtopicsOf(t)|
          ensures HasSubtopic(norm, r[|ts|].subtopics, SubtopicsOf(t)[j])
        {
          HasOwnSubtopic(norm, SubtopicsOf(t), j);
        }
      } else {
        MergeSubtopicsHasAll(norm, ts[k].subtopics, SubtopicsOf(t));
        FirstEquivalentAt(norm, r, t.title, k);
      }
    }
  }

  lemma {:induction false} MergeTopicsCovers(norm: string -> string, ts: seq<Topic>, raws: seq<RawTopic>)
    requires SubtopicsTitled(raws)
    ensures forall i :: 0 <= i < |raws| ==> Covers(norm, MergeTopics(norm, ts, raws), raws[i])
    decreases |raws|
  {
    if raws != [] {
      var init := raws[..|raws| - 1];
      var acc := MergeTopics(norm, ts, init);
      var r := MergeTopics(norm, ts, raws);
      assert forall i :: 0 <= i < |init| ==> init[i] == raws[i];
      MergeTopicsCovers(norm, ts, init);
      MergeTopicFacts(norm, acc, raws[|raws| - 1]);
      forall i | 0 <= i < |init|
        ensures Covers(norm, r, raws[i])
      {
        CoversGrows(norm, acc, r, init[i]);
      }
      MergeTopicCovers(norm, acc, raws[|raws| - 1]);
    }
  }

  lemma {:induction false} MergeTopicsCovered(norm: string -> string, ts: seq<Topic>, raws: seq<RawTopic>)
    requires forall i :: 0 <= i < |raws| ==> Covers(norm, ts, raws[i])
    ensures MergeTopics(norm, ts, raws) == ts
    decreases |raws|
  {
    if raws != [] {
      MergeTopicsCovered(norm, ts, raws[..|raws| - 1]);
      CoveredMergeIsIdentity(norm, ts, raws[|raws| - 1]);
    }
  }

  /** Merging the same topics a second time changes nothing, when every subtopic has a title. */
  lemma MergeTopicsIdempotent(norm: string -> string, ts: seq<Topic>, raws: seq<RawTopic>)
    requires SubtopicsTitled(raws)
    ensures MergeTopics(norm, MergeTopics(norm, ts, raws), raws) == MergeTopics(norm, ts, raws)
  {
    MergeTopicsCovers(norm, ts, raws);
    MergeTopicsCovered(norm, MergeTopics(norm, ts, raws), raws);
  }

  // ---------------------------------------------------------------------
  // The per-subject map
  // ---------------------------------------------------------------------

  /** The key of `materiaMap`. */
  function KeyOf(norm: string -> string, s: SubjectSyllabus): string {
    norm(s.subject)
  }

  /** `materiaMap.has(key)` / `get(key)`, as an index into the insertion-ordered entries. */
  function EntryIndex(norm: string -> string, state: seq<SubjectSyllabus>, key: string): (k: int)
    ensures -1 <= k < |state|
  {
    if state == [] then -1
    else if KeyOf(norm, state[0]) == key then 0
    else
      var k := EntryIndex(norm, state[1..], key);
      if k == -1 then -1 else k + 1
  }

  /** -1 when no entry has the key, otherwise the first entry that has it. */
  lemma {:induction false} EntryIndexFacts(norm: string -> string, state: seq<SubjectSyllabus>, key: string)
    ensures EntryIndex(norm, state, key) == -1 <==> forall i :: 0 <= i < |state| ==> KeyOf(norm, state[i]) != key
    ensures var k := EntryIndex(norm, state, key);
      k >= 0 ==> KeyOf(norm, state[k]) == key && forall i :: 0 <= i < k ==> KeyOf(norm, state[i]) != key
  {
    if state != [] && KeyOf(norm, state[0]) != key {
      EntryIndexFacts(norm, state[1..], key);
      assert forall i :: 1 <= i < |state| ==> state[1..][i - 1] == state[i];
    }
  }

  /** An enrollment that creates or feeds an entry. */
  predicate Contributes(norm: string -> string, e: Enrollment, raw: seq<RawSyllabus>) {
    e.subject != "" && MatchingRecords(norm, e, raw) != []
  }

  /** One iteration of the loop over enrollments. */
  function AggregateStep(norm: string -> string, state: seq<SubjectSyllabus>, e: Enrollment, raw: seq<RawSyllabus>): seq<SubjectSyllabus> {
    if !Contributes(norm, e, raw) then state
    else
      var matching := MatchingRecords(norm, e, raw);
      var k := EntryIndex(norm, state, norm(e.subject));
      if k == -1 then state + [SubjectSyllabus(e.subject, e.sectionId, MergeRecords(norm, [], matching))]
      else state[k := state[k].(topics := MergeRecords(norm, state[k].topics, matching))]
  }

  /** `getSyllabusDataForUser`, given the fetched records. */
  function Aggregate(norm: string -> string, es: seq<Enrollment>, raw: seq<RawSyllabus>): seq<SubjectSyllabus>
    decreases |es|
  {
    if es == [] then []
    else AggregateStep(norm, Aggregate(norm, es[..|es| - 1], raw), es[|es| - 1], raw)
  }

  // ---------------------------------------------------------------------
  // What the aggregation promises
  // ---------------------------------------------------------------------

  /** The keys of the entries, in insertion order. */
  function Keys(norm: string -> string, state: seq<SubjectSyllabus>): (r: seq<string>)
    ensures |r| == |state| && forall i :: 0 <= i < |state| ==> r[i] == KeyOf(norm, state[i])
  {
    seq(|state|, i requires 0 <= i < |state| => KeyOf(norm, state[i]))
  }

  /** The normalised names of the contributing enrollments, in order, repeats included. */
  function ContributingKeys(norm: string -> string, es: seq<Enrollment>, raw: seq<RawSyllabus>): seq<string>
    decreases |es|
  {
    if es == [] then []
    else
      var e := es[|es| - 1];
      ContributingKeys(norm, es[..|es| - 1], raw) + (if Contributes(norm, e, raw) then [norm(e.subject)] else [])
  }

  /** First occurrences only, in order. */
  function Dedup(s: seq<string>): (r: seq<string>)
    ensures forall x :: x in r <==> x in s
    ensures forall i, j :: 0 <= i < j < |r| ==> r[i] != r[j]
    decreases |s|
  {
    if s == [] then []
    else
      var init := s[..|s| - 1];
      assert s == init + [s[|s| - 1]];
      var d := Dedup(init);
      if s[|s| - 1] in d then d else d + [s[|s| - 1]]
  }

  /**
   * One entry per distinct normalised subject name, in the order in which
   * the first contributing enrollment of each name appears.
   */
  lemma {:induction false} AggregateKeys(norm: string -> string, es: seq<Enrollment>, raw: seq<RawSyllabus>)
    ensures Keys(norm, Aggregate(norm, es, raw)) == Dedup(ContributingKeys(norm, es, raw))
    decreases |es|
  {
    if es != [] {
      var init := es[..|es| - 1];
      var e := es[|es| - 1];
      AggregateKeys(norm, init, raw);
      StepKeys(norm, Aggregate(norm, init, raw), e, raw);
      var ck := ContributingKeys(norm, init, raw);
      if Contributes(norm, e, raw) {
        var key := norm(e.subject);
        assert ContributingKeys(norm, es, raw) == ck + [key];
        assert (ck + [key])[..|ck|] == ck;
      } else {
        assert ContributingKeys(norm, es, raw) == ck;
      }
    }
  }

  /** One step adds the enrollment's key when it contributes and the key is new. */
  lemma StepKeys(norm: string -> string, state: seq<SubjectSyllabus>, e: Enrollment, raw: seq<RawSyllabus>)
    ensures Keys(norm, AggregateStep(norm, state, e, raw))
         == if Contributes(norm, e, raw) && norm(e.subject) !in Keys(norm, state)
            then Keys(norm, state) + [norm(e.subject)] else Keys(norm, state)
  {
    var r := AggregateStep(norm, state, e, raw);
    if Contributes(norm, e, raw) {
      var key := norm(e.subject);
      var k := EntryIndex(norm, state, key);
      EntryIndexFacts(norm, state, key);
      if k == -1 {
        assert key !in Keys(norm, state);
        assert Keys(norm, r) == Keys(norm, state) + [key];
      } else {
        assert Keys(norm, state)[k] == key;
        assert Keys(norm, r) == Keys(norm, state);
      }
    }
  }

  /** Hence no two entries share a key. */
  lemma AggregateKeysDistinct(norm: string -> string, es: seq<Enrollment>, raw: seq<RawSyllabus>)
    ensures var s := Aggregate(norm, es, raw);
      forall i, j :: 0 <= i < j < |s| ==> KeyOf(norm, s[i]) != KeyOf(norm, s[j])
  {
    AggregateKeys(norm, es, raw);
    var s := Aggregate(norm, es, raw);
    forall i, j | 0 <= i < j < |s|
      ensures KeyOf(norm, s[i]) != KeyOf(norm, s[j])
    {
      assert Keys(norm, s)[i] == KeyOf(norm, s[i]) && Keys(norm, s)[j] == KeyOf(norm, s[j]);
    }
  }

  /**
   * Every entry carries the subject name and section of a contributing
   * enrollment, and its topics are titled and pairwise non-equivalent.
   */
  lemma {:induction false} AggregateEntriesFrom(norm: string -> string, es: seq<Enrollment>, raw: seq<RawSyllabus>)
    ensures forall i :: 0 <= i < |Aggregate(norm, es, raw)| ==> EntryFrom(norm, Aggregate(norm, es, raw)[i], es, raw)
    decreases |es|
  {
    if es != [] {
      var init := es[..|es| - 1];
      var state := Aggregate(norm, init, raw);
      AggregateEntriesFrom(norm, init, raw);
      forall i | 0 <= i < |state|
        ensures EntryFrom(norm, state[i], es, raw)
      {
        assert EntryFrom(norm, state[i], init, raw);
        EntryFromLonger(norm, state[i], init, es, raw);
      }
      StepEntriesFrom(norm, state, es, raw);
    }
  }

  lemma StepEntriesFrom(norm: string -> string, state: seq<SubjectSyllabus>, es: seq<Enrollment>, raw: seq<RawSyllabus>)
    requires es != []
    requires forall i :: 0 <= i < |state| ==> EntryFrom(norm, state[i], es, raw)
    ensures var r := AggregateStep(norm, state, es[|es| - 1], raw);
      forall i :: 0 <= i < |r| ==> EntryFrom(norm, r[i], es, raw)
  {
    var e := es[|es| - 1];
    var r := AggregateStep(norm, state, e, raw);
    if Contributes(norm, e, raw) {
      var k := EntryIndex(norm, state, norm(e.subject));
      if k == -1 {
        assert r[|state|].subject == e.subject && r[|state|].sectionId == e.sectionId;
        assert EntryFrom(norm, r[|state|], es, raw);
        assert forall i :: 0 <= i < |state| ==> r[i] == state[i];
      } else {
        assert forall i :: 0 <= i < |state| && i != k ==> r[i] == state[i];
        assert EntryFrom(norm, state[k], es, raw);
        assert r[k].subject == state[k].subject && r[k].sectionId == state[k].sectionId;
      }
    }
  }

  lemma {:induction false} AggregateWellFormed(norm: string -> string, es: seq<Enrollment>, raw: seq<RawSyllabus>)
    ensures forall i :: 0 <= i < |Aggregate(norm, es, raw)| ==> WellFormed(norm, Aggregate(norm, es, raw)[i])
    decreases |es|
  {
    if es != [] {
      var init := es[..|es| - 1];
      AggregateWellFormed(norm, init, raw);
      StepWellFormed(norm, Aggregate(norm, init, raw), es[|es| - 1], raw);
    }
  }

  lemma StepWellFormed(norm: string -> string, state: seq<SubjectSyllabus>, e: Enrollment, raw: seq<RawSyllabus>)
    requires forall i :: 0 <= i < |state| ==> WellFormed(norm, state[i])
    ensures var r := AggregateStep(norm, state, e, raw);
      forall i :: 0 <= i < |r| ==> WellFormed(norm, r[i])
  {
    var r := AggregateStep(norm, state, e, raw);
    if Contributes(norm, e, raw) {
      var matching := MatchingRecords(norm, e, raw);
      var k := EntryIndex(norm, state, norm(e.subject));
      if k == -1 {
        MergeTopicsKeepsInvariants(norm, [], TopicsOf(matching));
        assert forall i :: 0 <= i < |state| ==> r[i] == state[i];
      } else {
        assert WellFormed(norm, state[k]);
        MergeTopicsKeepsInvariants(norm, state[k].topics, TopicsOf(matching));
        assert forall i :: 0 <= i < |state| && i != k ==> r[i] == state[i];
      }
    }
  }

  /** The entry carries the subject name and section of a contributing enrollment. */
  predicate EntryFrom(norm: string -> string, x: SubjectSyllabus, es: seq<Enrollment>, raw: seq<RawSyllabus>) {
    exists k :: 0 <= k < |es| && Contributes(norm, es[k], raw)
                && x.subject == es[k].subject && x.sectionId == es[k].sectionId
  }

  /** The entry's topics are titled and pairwise non-equivalent. */
  predicate WellFormed(norm: string -> string, x: SubjectSyllabus) {
    Titled(x.topics) && DistinctTitles(norm, x.topics)
  }

  lemma EntryFromLonger(norm: string -> string, x: SubjectSyllabus, init: seq<Enrollment>, es: seq<Enrollment>, raw: seq<RawSyllabus>)
    requires init <= es && EntryFrom(norm, x, init, raw)
    ensures EntryFrom(norm, x, es, raw)
  {
    var k :| 0 <= k < |init| && Contributes(norm, init[k], raw)
             && x.subject == init[k].subject && x.sectionId == init[k].sectionId;
    assert es[k] == init[k];
  }

  /** A matching record whose `temas` is not an array still creates the entry, with no topics. */
  lemma EntryWithoutTopics(norm: string -> string, e: Enrollment, item: RawSyllabus)
    requires e.subject != "" && Matches(norm, e, item) && item.topics.None?
    ensures Aggregate(norm, [e], [item]) == [SubjectSyllabus(e.subject, e.sectionId, [])]
  {
    assert [e][..0] == [];
    assert [item][..0] == [];
    assert MatchingRecords(norm, e, [item]) == MatchingRecords(norm, e, []) + [item];
    assert TopicsOf([item]) == [];
  }

  /** Every subtopic of every record has a title. */
  predicate RecordsSubtopicsTitled(raw: seq<RawSyllabus>) {
    forall x :: x in raw && x.topics.Some? ==> SubtopicsTitled(x.topics.value)
  }

  lemma MatchedSubtopicsTitled(norm: string -> string, e: Enrollment, raw: seq<RawSyllabus>)
    requires RecordsSubtopicsTitled(raw)
    ensures SubtopicsTitled(TopicsOf(MatchingRecords(norm, e, raw)))
  {
    var ts := TopicsOf(MatchingRecords(norm, e, raw));
    forall i, j | 0 <= i < |ts| && 0 <= j < |SubtopicsOf(ts[i])|
      ensures SubtopicsOf(ts[i])[j].title != ""
    {
      TopicsOfMember(MatchingRecords(norm, e, raw), ts[i]);
      MatchingRecordsMembers(norm, e, raw);
      var x :| x in MatchingRecords(norm, e, raw) && x.topics.Some? && ts[i] in x.topics.value;
      var i' :| 0 <= i' < |x.topics.value| && x.topics.value[i'] == ts[i];
    }
  }

  lemma MergeRecordsTwice(norm: string -> string, ts: seq<Topic>, m: seq<RawSyllabus>)
    requires SubtopicsTitled(TopicsOf(m))
    ensures MergeRecords(norm, ts, m + m) == MergeRecords(norm, ts, m)
  {
    TopicsOfAppend(m, m);
    MergeTopicsAppend(norm, ts, TopicsOf(m), TopicsOf(m));
    MergeTopicsIdempotent(norm, ts, TopicsOf(m));
  }

  /** Feeding every record twice gives the same syllabus, provided every subtopic has a title. */
  lemma {:induction false} AggregateOfRepeatedRecords(norm: string -> string, es: seq<Enrollment>, raw: seq<RawSyllabus>)
    requires RecordsSubtopicsTitled(raw)
    ensures Aggregate(norm, es, raw + raw) == Aggregate(norm, es, raw)
    decreases |es|
  {
    if es != [] {
      var init := es[..|es| - 1];
      var e := es[|es| - 1];
      AggregateOfRepeatedRecords(norm, init, raw);
      var state := Aggregate(norm, init, raw);
      var m := MatchingRecords(norm, e, raw);
      MatchingAppend(norm, e, raw, raw);
      MatchedSubtopicsTitled(norm, e, raw);
      forall ts: seq<Topic>
        ensures MergeRecords(norm, ts, m + m) == MergeRecords(norm, ts, m)
      {
        MergeRecordsTwice(norm, ts, m);
      }
      assert AggregateStep(norm, state, e, raw + raw) == AggregateStep(norm, state, e, raw);
    }
  }

  // ---------------------------------------------------------------------
  // The loops of `getSyllabusDataForUser`
  // ---------------------------------------------------------------------

  /** `rawData.filter(...)` */
  method FilterMatching(norm: string -> string, e: Enrollment, raw: seq<RawSyllabus>) returns (r: seq<RawSyllabus>)
    ensures r == MatchingRecords(norm, e, raw)
  {
    r := [];
    for i := 0 to |raw|
      invariant r == MatchingRecords(norm, e, raw[..i])
    {
      assert raw[..i + 1][..i] == raw[..i];
      if Matches(norm, e, raw[i]) {
        r := r + [raw[i]];
      }
    }
    assert raw[..|raw|] == raw;
  }

  /** The `find` over the entry's topics. */
  method FindEquivalentTopic(norm: string -> string, ts: seq<Topic>, title: string) returns (k: int)
    ensures k == FirstEquivalent(norm, ts, title)
  {
    k := 0;
    while k < |ts| && !Same(norm, ts[k].title, title)
      invariant 0 <= k <= |ts|
      invariant forall i :: 0 <= i < k ==> !Same(norm, ts[i].title, title)
    {
      k := k + 1;
    }
    FirstEquivalentFacts(norm, ts, title);
    if k == |ts| {
      k := -1;
    } else {
      FirstEquivalentAt(norm, ts, title, k);
    }
  }

  /** The `some` over the existing topic's subtopics. */
  method SubtopicPresent(norm: string -> string, subs: seq<Subtopic>, s: Subtopic) returns (present: bool)
    ensures present == HasSubtopic(norm, subs, s)
  {
    present := false;
    var j := 0;
    while j < |subs| && !present
      invariant 0 <= j <= |subs|
      invariant present == exists i :: 0 <= i < j && Same(norm, subs[i].title, s.title)
    {
      present := Same(norm, subs[j].title, s.title);
      j := j + 1;
    }
  }

  /** The body of the loop over one record's `temas`. */
  method MergeRawTopic(norm: string -> string, ts: seq<Topic>, tema: RawTopic) returns (r: seq<Topic>)
    ensures r == MergeTopic(norm, ts, tema)
  {
    if tema.title == "" {
      return ts;
    }
    var subtemas := SubtopicsOf(tema);
    var k := FindEquivalentTopic(norm, ts, tema.title);
    if k >= 0 {
      var existing := ts[k];
      var description := existing.description;
      if description == "" && tema.description != "" {
        description := tema.description;
      }
      var subs := existing.subtopics;
      for j := 0 to |subtemas|
        invariant subs == MergeSubtopics(norm, existing.subtopics, subtemas[..j])
      {
        assert subtemas[..j + 1][..j] == subtemas[..j];
        var present := SubtopicPresent(norm, subs, subtemas[j]);
        if !present {
          subs := subs + [subtemas[j]];
        }
      }
      assert subtemas[..|subtemas|] == subtemas;
      r := ts[k := existing.(description := description, subtopics := subs)];
    } else {
      r := ts + [NewTopic(tema)];
    }
  }

  /** The loop over one record's `temas`. */
  method MergeRawTopics(norm: string -> string, ts: seq<Topic>, temas: seq<RawTopic>) returns (r: seq<Topic>)
    ensures r == MergeTopics(norm, ts, temas)
  {
    r := ts;
    for j := 0 to |temas|
      invariant r == MergeTopics(norm, ts, temas[..j])
    {
      assert temas[..j + 1][..j] == temas[..j];
      r := MergeRawTopic(norm, r, temas[j]);
    }
    assert temas[..|temas|] == temas;
  }

  /** The loop over the matching records. */
  method MergeMatching(norm: string -> string, ts: seq<Topic>, matching: seq<RawSyllabus>) returns (r: seq<Topic>)
    ensures r == MergeRecords(norm, ts, matching)
  {
    r := ts;
    for i := 0 to |matching|
      invariant r == MergeTopics(norm, ts, TopicsOf(matching[..i]))
    {
      var done := TopicsOf(matching[..i]);
      assert matching[..i + 1][..i] == matching[..i];
      if matching[i].topics.Some? {
        var temas := matching[i].topics.value;
        r := MergeRawTopics(norm, r, temas);
        MergeTopicsAppend(norm, ts, done, temas);
      } else {
        assert done + [] == done;
      }
    }
    assert matching[..|matching|] == matching;
  }

  /** `materiaMap.has(key)` as a scan of the entries. */
  method LookupEntry(norm: string -> string, state: seq<SubjectSyllabus>, key: string) returns (k: int)
    ensures k == EntryIndex(norm, state, key)
  {
    k := 0;
    while k < |state| && KeyOf(norm, state[k]) != key
      invariant 0 <= k <= |state|
      invariant forall i :: 0 <= i < k ==> KeyOf(norm, state[i]) != key
    {
      k := k + 1;
    }
    EntryIndexFacts(norm, state, key);
    if k == |state| {
      k := -1;
    }
  }

  /** The loop over the enrollments of `getSyllabusDataForUser`. */
  method AggregateEnrollments(norm: string -> string, es: seq<Enrollment>, raw: seq<RawSyllabus>) returns (result: seq<SubjectSyllabus>)
    ensures result == Aggregate(norm, es, raw)
  {
    result := [];
    for i := 0 to |es|
      invariant result == Aggregate(norm, es[..i], raw)
    {
      assert es[..i + 1][..i] == es[..i];
      var e := es[i];
      if e.subject != "" {
        var matching := FilterMatching(norm, e, raw);
        if matching != [] {
          var k := LookupEntry(norm, result, norm(e.subject));
          if k == -1 {
            var topics := MergeMatching(norm, [], matching);
            result := result + [SubjectSyllabus(e.subject, e.sectionId, topics)];
          } else {
            var topics := MergeMatching(norm, result[k].topics, matching);
            result := result[k := result[k].(topics := topics)];
          }
        }
      }
    }
    assert es[..|es|] == es;
  }

  /** `getSyllabusDataForUser` once the records are fetched. */
  method GetSyllabusDataForUser(es: seq<Enrollment>, raw: seq<RawSyllabus>) returns (result: seq<SubjectSyllabus>)
    ensures result == Aggregate(NormalizeText, es, raw)
  {
    result := AggregateEnrollments(NormalizeText, es, raw);
  }
}
