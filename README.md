# EduBot chatbot engine, modelled in Dafny

EduBot is the student assistant of a university front end. Its engine is
the class `ChatbotService` in `EstudiantesFrontEnd/src/lib/geminiService.ts`.
A static study-guide knowledge base sits beside it in
`EstudiantesFrontEnd/src/services/ChatbotService.ts`. Given a student's
message, the engine does one of the following:

- it answers academic questions from the student's enrollments itself
  (grades, average, best and worst grade, improvement roadmap, subjects,
  classrooms, syllabus topics);
- it asks the student to log in;
- it forwards the conversation to a chat-completion service;
- it falls back to canned replies when that service is unavailable.

The project models that engine and proves what it does. It is organised as one module per concern.

| module | what it models |
|---|---|
| `Text` | The three string normalisations the engine keeps distinct: `normalizeText`, the accent fold used by subject matching, and plain `toLowerCase`. Also `trim`, `includes`, `split`/`join`, and the decimal numerals used as option ids. |
| `Records` | `find` and `findIndex` over sequences. |
| `Intents` | The keyword predicates `isGradeRelated` … `isSyllabusQuery`. This includes the two ordered regular expressions of `isWorstGradeQuery`, and the fixed priority of `basicIntentAnalysis`. |
| `Resolver` | Subject resolution: `buscarMateria`, `findMateriaFromMessage`, and the passes of `detectSpecificQuery`. |
| `Aggregation` | `getSyllabusDataForUser`, the stable merge of fetched syllabus records into one entry per subject. |
| `Grades` | Grade bands, the average, the best and worst grade, per-subject improvement roadmaps, and grouping by career. |
| `Knowledge` | The study-guide knowledge base and its three lookups. |
| `Uri` | `encodeURIComponent`. |
| `StudyGuide` | The two line-list formatters: `formatStudyGuideResponse` and `generateStudyLinks`. |
| `Selection` | The topic-selection state machine: `prepareTopicSelection` numbers the options, `tryHandleTopicSelection` resolves a reply against them, and `formatTopicDetailResponse` answers. |
| `Chatbot` | The class `ChatbotService` itself: its `conversationContext`, the `chatHistory` buffer, the academic dispatch `generateAcademicResponse`, the overview and roadmap replies that leave a selection pending, and `sendMessage` with its routing and fallback. |

`ChatbotService` is a Dafny class whose fields are the source's fields. Its
methods change them and are proved against specification functions:

- `SendMessage` against `Send`;
- `GenerateAcademicResponse` against `Academic`;
- `TrimChatHistory` against `TrimHistory`;
- `UpdateConversationContext` against `UpdatedContext`.

The properties the engine promises are proved as lemmas about those
functions. The loops that build lists by `push` or that fill the
aggregation map become methods with loop invariants. Each of these methods
is proved equal to a function, and the functions carry the lemmas.

The following are parameters of the model:

- what the network returns: the user data, the fetched syllabus records,
  the completion or its failure;
- the connection test's outcome;
- the phrases captured by the `detectSpecificQuery` regular expressions;
- the system prompt text.

A reply of each academic answer is modelled by what it reports: the
`Reply` datatype names the answer and carries the data it shows. The texts
of the topic-selection exchange and the study guides are modelled line for
line.

Four behaviours of the code are worth noting, and the model keeps them:

- An aggregated subject entry is created even when its matching records
  bring no topics.
- A successful topic selection leaves the pending selection in place.
- In `sendMessage`, a pending selection reaches the academic path only when
  some keyword predicate also matches.
- `lastMentionedMateria` is updated when the lower-cased message contains
  a lower-cased subject name; the message is not accent-folded or
  normalised there.

## Model

| member | source | states |
|---|---|---|
| Text.LowerChar | EstudiantesFrontEnd/src/lib/geminiService.ts:113-115 | one character of `toLowerCase`: an upper-case letter moves down by 32 code points, every other character is kept, and the result is never upper case |
| Text.Decompose | EstudiantesFrontEnd/src/lib/geminiService.ts:233 | NFD of one character: a character without a decomposition is kept; an accented Latin-1 letter becomes an ASCII base letter followed by a combining mark |
| Text.DecomposeParts | EstudiantesFrontEnd/src/lib/geminiService.ts:233 | no character produced by NFD decomposes further |
| Text.LowerCharFacts | EstudiantesFrontEnd/src/lib/geminiService.ts:231-237 | lower-casing a character twice is lower-casing it once, and it keeps white space, word characters and non-decomposability |
| Text.LowerCase | EstudiantesFrontEnd/src/lib/geminiService.ts:113-115 | `toLowerCase` keeps the length and lower-cases character by character |
| Text.LowerCaseIdempotent | EstudiantesFrontEnd/src/lib/geminiService.ts:1184 | lower-casing twice is lower-casing once |
| Text.NfdConcat | EstudiantesFrontEnd/src/lib/geminiService.ts:233 | NFD distributes over concatenation |
| Text.KeepWordCharsConcat | EstudiantesFrontEnd/src/lib/geminiService.ts:234 | removing non-word characters distributes over concatenation |
| Text.StripMarksConcat | EstudiantesFrontEnd/src/lib/geminiService.ts:264 | removing U+0300..U+036F distributes over concatenation |
| Text.StripMarksIdentity | EstudiantesFrontEnd/src/lib/geminiService.ts:264 | a string without combining marks is unchanged by the mark removal |
| Text.TrimStart | EstudiantesFrontEnd/src/lib/geminiService.ts:236 | the result is no longer than the input and does not start with white space |
| Text.TrimEnd | EstudiantesFrontEnd/src/lib/geminiService.ts:236 | the result is no longer than the input and does not end with white space |
| Text.TrimStartSuffix | EstudiantesFrontEnd/src/lib/geminiService.ts:236 | trimming the start leaves a suffix of the input |
| Text.TrimEndPrefix | EstudiantesFrontEnd/src/lib/geminiService.ts:236 | trimming the end leaves a prefix of the input |
| Text.TrimFacts | EstudiantesFrontEnd/src/lib/geminiService.ts:236 | `trim` returns a contiguous slice of its input with no white space at either end |
| Text.TrimOfTrimmed | EstudiantesFrontEnd/src/lib/geminiService.ts:236 | `trim` leaves a string with no white space at either end unchanged |
| Text.EquivalentFacts | EstudiantesFrontEnd/src/lib/geminiService.ts:239-244 | `areStringsEquivalent` is reflexive on non-empty strings, symmetric and transitive, and equivalent strings relate alike to every third string |
| Text.NfdNoDecomposable | EstudiantesFrontEnd/src/lib/geminiService.ts:233 | the NFD output holds no decomposable character |
| Text.NfdIdentity | EstudiantesFrontEnd/src/lib/geminiService.ts:233 | NFD leaves a string without decomposable characters unchanged |
| Text.KeepWordCharsFacts | EstudiantesFrontEnd/src/lib/geminiService.ts:234 | after the removal only word characters remain, and none decompose |
| Text.KeepWordCharsIdentity | EstudiantesFrontEnd/src/lib/geminiService.ts:234 | a string of word characters is unchanged by the removal |
| Text.LowerCaseNormal | EstudiantesFrontEnd/src/lib/geminiService.ts:235 | lower-casing word characters that do not decompose yields characters `normalizeText` leaves alone |
| Text.TrimKeeps | EstudiantesFrontEnd/src/lib/geminiService.ts:236 | a property of every character survives `trim` |
| Text.NormalizeOutput | EstudiantesFrontEnd/src/lib/geminiService.ts:231-237 | the output of `normalizeText` is trimmed and consists of lower-case, non-decomposing letters, digits and spaces |
| Text.NormalizeOfNormal | EstudiantesFrontEnd/src/lib/geminiService.ts:231-237 | `normalizeText` leaves its own kind of output unchanged |
| Text.NormalizeIdempotent | EstudiantesFrontEnd/src/lib/geminiService.ts:231-237 | normalising twice is normalising once |
| Text.LatinChar | EstudiantesFrontEnd/src/lib/geminiService.ts:231-237 | on a Spanish letter, NFD followed by the removal of non-word characters leaves its base letter, and NFD of the lower-cased letter followed by the mark removal leaves the lower-cased base letter |
| Text.KeepWordCharsOfLatin | EstudiantesFrontEnd/src/lib/geminiService.ts:233-234 | on Spanish text, NFD followed by the removal of non-word characters yields the base letters |
| Text.StripMarksOfLatin | EstudiantesFrontEnd/src/lib/geminiService.ts:264 | on Spanish text the accent fold yields the lower-cased base letters |
| Text.NormalizeTextOfLatin | EstudiantesFrontEnd/src/lib/geminiService.ts:231-237 | on Spanish text `normalizeText` drops accents and case and then trims |
| Text.FoldAccentsOfLatin | EstudiantesFrontEnd/src/lib/geminiService.ts:264 | on Spanish text the accent fold and `normalizeText` differ only by the trim |
| Text.NormalizeLatinTo | EstudiantesFrontEnd/src/lib/geminiService.ts:231-237 | a Spanish string whose lower-cased base letters are already trimmed normalises to them in both normalisations |
| Text.ContainsIff | EstudiantesFrontEnd/src/lib/geminiService.ts:113-115 | `includes` holds exactly when the substring occurs at some position |
| Text.ContainsAt | EstudiantesFrontEnd/src/lib/geminiService.ts:113-115 | an occurrence at a position makes `includes` hold |
| Text.ContainsEmpty | EstudiantesFrontEnd/src/lib/geminiService.ts:250 | every string includes the empty string |
| Text.ContainsSelf | EstudiantesFrontEnd/src/lib/geminiService.ts:352 | every string includes itself |
| Text.Split | EstudiantesFrontEnd/src/lib/geminiService.ts:357 | `split` yields at least one part and no part holds the separator |
| Text.JoinSplit | EstudiantesFrontEnd/src/services/ChatbotService.ts:345 | joining the parts of a split with the same separator gives back the string |
| Text.SplitNoSeparator | EstudiantesFrontEnd/src/services/ChatbotService.ts:345 | a string without the separator splits into itself |
| Text.SplitAtSeparator | EstudiantesFrontEnd/src/services/ChatbotService.ts:345 | splitting at a separator splits both sides |
| Text.SplitJoin | EstudiantesFrontEnd/src/services/ChatbotService.ts:345 | splitting what was joined from separator-free parts gives back the parts |
| Text.NatToStringShape | EstudiantesFrontEnd/src/lib/geminiService.ts:964 | `counter.toString()` is a non-empty run of ASCII digits, one digit exactly below 10 and at most two exactly below 100 |
| Text.NatToStringInjective | EstudiantesFrontEnd/src/lib/geminiService.ts:964 | equal numerals come from equal counters |
| Text.NatToStringDistinct | EstudiantesFrontEnd/src/lib/geminiService.ts:964 | distinct counters give distinct option ids |
| Records.FindFirst | EstudiantesFrontEnd/src/services/ChatbotService.ts:257 | `find` answers none exactly when no element satisfies the test, and otherwise the element at the first index that does |
| Records.FindFirstAt | EstudiantesFrontEnd/src/services/ChatbotService.ts:257 | `find` answers the element at the first index where the test holds |
| Records.FindIndex | EstudiantesFrontEnd/src/lib/geminiService.ts:610 | the first index where the test holds, or -1 exactly when there is none |
| Intents.LineRest | EstudiantesFrontEnd/src/lib/geminiService.ts:186-188 | the part of the string a regular-expression `.*` can span: the longest prefix without a line terminator |
| Intents.LineRestContains | EstudiantesFrontEnd/src/lib/geminiService.ts:186-188 | a word lies in that part exactly when it occurs before any line break |
| Intents.MatchHere | EstudiantesFrontEnd/src/lib/geminiService.ts:186-188 | a match attempt at one start position agrees with "a word of the second list occurs later on the same line" |
| Intents.ShiftMatch | EstudiantesFrontEnd/src/lib/geminiService.ts:186-188 | a match in the tail is a match in the whole string |
| Intents.UnshiftMatch | EstudiantesFrontEnd/src/lib/geminiService.ts:186-188 | a match that does not start at position 0 is a match in the tail |
| Intents.OrderedScanSound | EstudiantesFrontEnd/src/lib/geminiService.ts:186-188 | when the scan over start positions succeeds, a word of the first list is followed on the same line by a word of the second |
| Intents.OrderedScanComplete | EstudiantesFrontEnd/src/lib/geminiService.ts:186-188 | when such a pair of words exists, the scan succeeds |
| Intents.OrderedScanIff | EstudiantesFrontEnd/src/lib/geminiService.ts:186-188 | the regular expression `(a or b).*(c or d)` matches exactly when a first word is followed on one line by a second word |
| Intents.WorstGradeQueryIff | EstudiantesFrontEnd/src/lib/geminiService.ts:170-200 | a worst-grade question is one of three things, matched without regard to case: a listed phrase, a low word followed on one line by a score or subject word, or a score word followed on one line by a low word |
| Intents.ImprovementIsGradeRelated | EstudiantesFrontEnd/src/lib/geminiService.ts:213-221 | every improvement question is grade related |
| Intents.LowerCaseInvariant | EstudiantesFrontEnd/src/lib/geminiService.ts:1184-1202 | the keyword predicates answer alike on the message and on its lower-cased form |
| Intents.SyllabusQueryOfNormalized | EstudiantesFrontEnd/src/lib/geminiService.ts:223-229 | the syllabus test answers alike on a message and on its normal form |
| Intents.SyllabusQueryRespectsEquivalence | EstudiantesFrontEnd/src/lib/geminiService.ts:223-229 | equivalent messages are syllabus questions alike |
| Intents.FirstHit | EstudiantesFrontEnd/src/lib/geminiService.ts:1677-1683 | an if-else chain: the value of the first rule whose guard holds, or the default exactly when no guard holds |
| Intents.FirstHitAt | EstudiantesFrontEnd/src/lib/geminiService.ts:1677-1683 | the first rule whose guard holds decides |
| Intents.FirstHitNone | EstudiantesFrontEnd/src/lib/geminiService.ts:1675 | with no guard holding, the default is returned |
| Intents.BasicIntentIsFirstHit | EstudiantesFrontEnd/src/lib/geminiService.ts:1672-1691 | `basicIntentAnalysis` is the first hit of the priority table: grades, subjects, classroom, best, worst, plan, greeting |
| Intents.ClaseNeverClassroom | EstudiantesFrontEnd/src/lib/geminiService.ts:1678-1679 | a transcription that mentions "clase" is never classified as a classroom question, because the subject test comes first |
| Intents.OtroIffNothingMatches | EstudiantesFrontEnd/src/lib/geminiService.ts:1675-1683 | a transcription is classified `OTRO` exactly when no rule of the table matches |
| Resolver.BuscarMateria | EstudiantesFrontEnd/src/lib/geminiService.ts:345-367 | `buscarMateria` answers null exactly when no enrolled subject matches the candidate. Otherwise it answers the subject of the first enrollment that matches, by containment either way or by a word of more than four letters |
| Resolver.BuscarMateriaAt | EstudiantesFrontEnd/src/lib/geminiService.ts:348-364 | the first matching enrollment decides |
| Resolver.EmptyCandidateMatches | EstudiantesFrontEnd/src/lib/geminiService.ts:352 | a candidate that folds to nothing matches every named subject |
| Resolver.EmptyCandidatePicksFirstNamed | EstudiantesFrontEnd/src/lib/geminiService.ts:345-367 | an empty candidate picks the first enrollment that has a subject name |
| Resolver.ExactNameIsFound | EstudiantesFrontEnd/src/lib/geminiService.ts:352 | a candidate equal to an enrolled subject's name always finds a subject |
| Resolver.FindMateriaFromMessage | EstudiantesFrontEnd/src/lib/geminiService.ts:246-255 | the first enrolled subject whose normalised name the normalised message contains; when there is none, the remembered `lastMentionedMateria` |
| Resolver.BlankNameAlwaysMentioned | EstudiantesFrontEnd/src/lib/geminiService.ts:250 | a subject name that normalises to nothing counts as mentioned by every message |
| Resolver.FirstCaptureHit | EstudiantesFrontEnd/src/lib/geminiService.ts:273-282 | one pass of patterns: the first non-empty capture whose trimmed text `buscarMateria` resolves, and that subject; none exactly when no capture resolves |
| Resolver.DirectScan | EstudiantesFrontEnd/src/lib/geminiService.ts:322-327 | the direct scan finds the first enrolled subject whose folded name is in the folded message, and finds none exactly when there is no such subject |
| Resolver.DetectedSubjectIsEnrolled | EstudiantesFrontEnd/src/lib/geminiService.ts:259-343 | whatever pass answers, the reported subject is the non-empty name of an enrolled subject |
| Resolver.NoQueryIff | EstudiantesFrontEnd/src/lib/geminiService.ts:259-343 | `detectSpecificQuery` answers `none` exactly when no classroom, section or grade capture resolves and no enrolled name occurs in the folded message |
| Resolver.DirectScanFacets | EstudiantesFrontEnd/src/lib/geminiService.ts:322-340 | with no capture resolving, the direct scan answers about the first subject named, with facet priority classroom, then section, then grade, then general |
| Resolver.ClassroomPatternsFirst | EstudiantesFrontEnd/src/lib/geminiService.ts:267-282 | a classroom capture that resolves wins over every later pass |
| Aggregation.SameIsEquivalent | EstudiantesFrontEnd/src/lib/geminiService.ts:239-244 | the merge's equivalence, specialised to `normalizeText`, is `areStringsEquivalent` |
| Aggregation.MatchingRecordsMembers | EstudiantesFrontEnd/src/lib/geminiService.ts:560-576 | the filter keeps exactly the records whose subject is equivalent to the enrollment's and whose section agrees when both carry one |
| Aggregation.MatchingAppend | EstudiantesFrontEnd/src/lib/geminiService.ts:560-576 | the filter distributes over concatenation |
| Aggregation.HasSubtopicPrefix | EstudiantesFrontEnd/src/lib/geminiService.ts:617 | a subtopic present in a list is present in every extension of it |
| Aggregation.HasOwnSubtopic | EstudiantesFrontEnd/src/lib/geminiService.ts:617 | a titled subtopic is present in a list that holds it |
| Aggregation.MergeSubtopics | EstudiantesFrontEnd/src/lib/geminiService.ts:616-620 | the subtopic merge only appends, and only incoming subtopics |
| Aggregation.MergeSubtopicsAppendsOnlyNew | EstudiantesFrontEnd/src/lib/geminiService.ts:616-620 | each appended subtopic had no equivalent title before it, counting those appended earlier |
| Aggregation.MergeSubtopicsHasAll | EstudiantesFrontEnd/src/lib/geminiService.ts:616-620 | after the merge every titled incoming subtopic has an equivalent |
| Aggregation.MergeSubtopicsPresent | EstudiantesFrontEnd/src/lib/geminiService.ts:616-620 | incoming subtopics that are all present already change nothing |
| Aggregation.FirstEquivalent | EstudiantesFrontEnd/src/lib/geminiService.ts:610 | the index found is -1 or a position of the topic list |
| Aggregation.FirstEquivalentFacts | EstudiantesFrontEnd/src/lib/geminiService.ts:610 | the `find` of an existing topic yields -1 exactly when no topic title is equivalent; otherwise it yields the first topic that is |
| Aggregation.FirstEquivalentAt | EstudiantesFrontEnd/src/lib/geminiService.ts:610 | the first equivalent topic is the one found |
| Aggregation.ExtendsTransitive | EstudiantesFrontEnd/src/lib/geminiService.ts:597-631 | "only grows" composes over successive merges |
| Aggregation.MergeTopicFacts | EstudiantesFrontEnd/src/lib/geminiService.ts:597-630 | One merge removes and reorders nothing. An untitled topic is skipped. A topic is appended exactly when its title is set and no existing title is equivalent, and the appended topic is that raw topic; otherwise the length is unchanged. |
| Aggregation.MergeTopicsExtends | EstudiantesFrontEnd/src/lib/geminiService.ts:597-631 | merging a record's topics keeps every earlier topic in place, and each only grows |
| Aggregation.MergeTopicsAppend | EstudiantesFrontEnd/src/lib/geminiService.ts:592-632 | merging two runs of topics is merging one after the other |
| Aggregation.TopicsOfAppend | EstudiantesFrontEnd/src/lib/geminiService.ts:592-597 | the topics of concatenated records are the concatenated topics |
| Aggregation.TopicsOfMember | EstudiantesFrontEnd/src/lib/geminiService.ts:592-597 | every merged topic comes from a record whose `temas` is an array |
| Aggregation.MergeTopicsKeepsInvariants | EstudiantesFrontEnd/src/lib/geminiService.ts:597-631 | merging keeps topic titles set and pairwise non-equivalent |
| Aggregation.CoveredMergeIsIdentity | EstudiantesFrontEnd/src/lib/geminiService.ts:610-620 | merging a topic whose content is already held changes nothing |
| Aggregation.CoversGrows | EstudiantesFrontEnd/src/lib/geminiService.ts:610-620 | content already held stays held as the list grows |
| Aggregation.MergeTopicCovers | EstudiantesFrontEnd/src/lib/geminiService.ts:610-630 | after merging a topic whose subtopics are all titled, its content is held |
| Aggregation.MergeTopicsCovers | EstudiantesFrontEnd/src/lib/geminiService.ts:597-631 | after merging a run of such topics, the content of every one of them is held |
| Aggregation.MergeTopicsCovered | EstudiantesFrontEnd/src/lib/geminiService.ts:597-631 | merging topics whose content is all held changes nothing |
| Aggregation.MergeTopicsIdempotent | EstudiantesFrontEnd/src/lib/geminiService.ts:597-631 | merging the same topics a second time changes nothing, when every subtopic has a title |
| Aggregation.EntryIndex | EstudiantesFrontEnd/src/lib/geminiService.ts:582-590 | the entry found is -1 or a position of the entries |
| Aggregation.EntryIndexFacts | EstudiantesFrontEnd/src/lib/geminiService.ts:582-590 | `materiaMap.has` fails exactly when no entry has the key; `get` yields the entry with the key |
| Aggregation.Keys | EstudiantesFrontEnd/src/lib/geminiService.ts:635 | the map's keys in insertion order, one per entry |
| Aggregation.Dedup | EstudiantesFrontEnd/src/lib/geminiService.ts:582-588 | first occurrences only: the same members, no repeats |
| Aggregation.AggregateKeys | EstudiantesFrontEnd/src/lib/geminiService.ts:553-635 | one entry per distinct normalised subject name, in the order of the first enrollment of that name that matched at least one record |
| Aggregation.StepKeys | EstudiantesFrontEnd/src/lib/geminiService.ts:553-590 | one enrollment adds its key exactly when it matched a record and its key is new |
| Aggregation.AggregateKeysDistinct | EstudiantesFrontEnd/src/lib/geminiService.ts:551-635 | no two entries share a normalised subject name |
| Aggregation.AggregateEntriesFrom | EstudiantesFrontEnd/src/lib/geminiService.ts:582-588 | every entry carries the subject name and section of an enrollment that matched a record |
| Aggregation.StepEntriesFrom | EstudiantesFrontEnd/src/lib/geminiService.ts:582-588 | one enrollment keeps every entry traceable to a matching enrollment |
| Aggregation.AggregateWellFormed | EstudiantesFrontEnd/src/lib/geminiService.ts:597-631 | every entry's topics are titled and pairwise non-equivalent |
| Aggregation.StepWellFormed | EstudiantesFrontEnd/src/lib/geminiService.ts:597-631 | one enrollment keeps every entry's topics titled and distinct |
| Aggregation.EntryFromLonger | EstudiantesFrontEnd/src/lib/geminiService.ts:553 | an entry traceable to an earlier enrollment stays traceable as the loop goes on |
| Aggregation.EntryWithoutTopics | EstudiantesFrontEnd/src/lib/geminiService.ts:578-595 | a matching record whose `temas` is not an array still creates the entry, with no topics |
| Aggregation.MatchedSubtopicsTitled | EstudiantesFrontEnd/src/lib/geminiService.ts:602-608 | when every record's subtopics are titled, so are those of the matching records |
| Aggregation.MergeRecordsTwice | EstudiantesFrontEnd/src/lib/geminiService.ts:592-632 | merging the matching records twice over gives what merging them once gives |
| Aggregation.AggregateOfRepeatedRecords | EstudiantesFrontEnd/src/lib/geminiService.ts:549-636 | feeding every record twice gives the same syllabus, provided every subtopic has a title |
| Aggregation.FilterMatching | EstudiantesFrontEnd/src/lib/geminiService.ts:560-576 | the `filter` loop computes the matching records |
| Aggregation.FindEquivalentTopic | EstudiantesFrontEnd/src/lib/geminiService.ts:610 | the `find` loop computes the first equivalent topic |
| Aggregation.SubtopicPresent | EstudiantesFrontEnd/src/lib/geminiService.ts:617 | the `some` loop answers whether an equivalent subtopic is present |
| Aggregation.MergeRawTopic | EstudiantesFrontEnd/src/lib/geminiService.ts:597-630 | the body for one raw topic: skip, absorb into the equivalent topic, or append |
| Aggregation.MergeRawTopics | EstudiantesFrontEnd/src/lib/geminiService.ts:597-631 | the loop over one record's topics |
| Aggregation.MergeMatching | EstudiantesFrontEnd/src/lib/geminiService.ts:592-632 | the loop over the matching records |
| Aggregation.LookupEntry | EstudiantesFrontEnd/src/lib/geminiService.ts:582 | `materiaMap.has` as a scan of the entries |
| Aggregation.AggregateEnrollments | EstudiantesFrontEnd/src/lib/geminiService.ts:553-633 | the loop over enrollments computes the aggregate |
| Aggregation.GetSyllabusDataForUser | EstudiantesFrontEnd/src/lib/geminiService.ts:549-636 | `getSyllabusDataForUser`, once the records are fetched, is the aggregate under `normalizeText` |
| Grades.BandMonotone | EstudiantesFrontEnd/src/lib/geminiService.ts:419-435 | a higher grade never falls in a lower band |
| Grades.BandPassing | EstudiantesFrontEnd/src/lib/geminiService.ts:419-435 | a grade needs improvement exactly below 70 and is excellent exactly from 90 on |
| Grades.Graded | EstudiantesFrontEnd/src/lib/geminiService.ts:703-705 | the filter keeps exactly the enrollments that have a grade |
| Grades.Average | EstudiantesFrontEnd/src/lib/geminiService.ts:702-712 | the average is absent (the "no grades yet" reply) exactly when no enrollment has a grade |
| Grades.SumBounds | EstudiantesFrontEnd/src/lib/geminiService.ts:711-712 | the sum of n grades between lo and hi lies between n times lo and n times hi |
| Grades.AverageBounds | EstudiantesFrontEnd/src/lib/geminiService.ts:711-712 | the average lies between any lower and any upper bound of the present grades |
| Grades.BestOf | EstudiantesFrontEnd/src/lib/geminiService.ts:745-747 | the strict-comparison reduce yields a graded element no grade exceeds, and every earlier element's grade is strictly lower |
| Grades.WorstOf | EstudiantesFrontEnd/src/lib/geminiService.ts:780-783 | the strict-comparison reduce yields a graded element no grade is below, and every earlier element's grade is strictly higher |
| Grades.BestGrade | EstudiantesFrontEnd/src/lib/geminiService.ts:736-747 | the best-graded enrollment, absent exactly when nothing is graded; no graded enrollment before it in `es` has an equal or higher grade, so ties go to the first |
| Grades.WorstGrade | EstudiantesFrontEnd/src/lib/geminiService.ts:765-783 | the worst-graded enrollment, absent exactly when nothing is graded; no graded enrollment before it in `es` has an equal or lower grade, so ties go to the first |
| Grades.BestTieGoesToFirst | EstudiantesFrontEnd/src/lib/geminiService.ts:745-783 | of two equal grades, the earlier enrollment is reported as both best and worst |
| Grades.BestGradeLabel | EstudiantesFrontEnd/src/lib/geminiService.ts:752-760 | the label by band: "Sobresaliente" exactly from 90, "Muy bueno" exactly from 80 to under 90, and, as written, "Excelente" exactly below 80 |
| Grades.LowGrades | EstudiantesFrontEnd/src/lib/geminiService.ts:831-833 | the roadmap plans for exactly the enrollments graded under 70 |
| Grades.Ceil | EstudiantesFrontEnd/src/lib/geminiService.ts:907 | `Math.ceil`: the least integer not below the argument |
| Grades.SubjectRoadmapOf | EstudiantesFrontEnd/src/lib/geminiService.ts:905-932 | the subject's plan needs 70 minus the grade in points, takes the ceiling of a fifth of that in weeks, and has a fifth phase exactly beyond four weeks |
| Grades.RoadmapShape | EstudiantesFrontEnd/src/lib/geminiService.ts:905-932 | a failing grade needs at least one week, and the "Semana 5+" phase appears exactly below 50 |
| Grades.Careers | EstudiantesFrontEnd/src/lib/geminiService.ts:1308-1317 | the careers of the groups, in the map's order |
| Grades.GroupIndex | EstudiantesFrontEnd/src/lib/geminiService.ts:1311 | the position of a career's group, or the end when there is none |
| Grades.InCareer | EstudiantesFrontEnd/src/lib/geminiService.ts:1314 | the enrollments of one career, and only those |
| Grades.GroupIndexIsMembership | EstudiantesFrontEnd/src/lib/geminiService.ts:1311 | `carrerasMap.has` holds exactly when the career already has a group |
| Grades.CareersOfAdd | EstudiantesFrontEnd/src/lib/geminiService.ts:1310-1314 | an enrollment of a new career opens a group at the end, and one of a known career changes no career |
| Grades.InCareerSnoc | EstudiantesFrontEnd/src/lib/geminiService.ts:1314 | one more enrollment extends its own career's members only |
| Grades.CareerGroupsDistinct | EstudiantesFrontEnd/src/lib/geminiService.ts:1308-1315 | each career has exactly one group |
| Grades.CareerGroupsCover | EstudiantesFrontEnd/src/lib/geminiService.ts:1308-1315 | the groups are exactly the careers that occur, with `Sin carrera` standing for a missing career |
| Grades.InCareerEmpty | EstudiantesFrontEnd/src/lib/geminiService.ts:1314 | a career nobody has has no members |
| Grades.AddToGroupsMatch | EstudiantesFrontEnd/src/lib/geminiService.ts:1309-1315 | one step of the grouping keeps every group equal to its career's enrollments in order |
| Grades.CareerGroupsMembers | EstudiantesFrontEnd/src/lib/geminiService.ts:1308-1315 | a career's group holds exactly that career's enrollments, in their original order |
| Grades.GroupByCareer | EstudiantesFrontEnd/src/lib/geminiService.ts:1308-1315 | the `forEach` over enrollments computes the career groups |
| Knowledge.CatalogAsWritten | EstudiantesFrontEnd/src/services/ChatbotService.ts:249-252 | as written, a key that is not an own key can still hit a property every object inherits |
| Knowledge.InheritedNameNotNormal | EstudiantesFrontEnd/src/services/ChatbotService.ts:250-251 | every inherited property name but `constructor` has a capital letter or an underscore, so no normalised name equals it |
| Knowledge.OnlyConstructorIsReachable | EstudiantesFrontEnd/src/services/ChatbotService.ts:249-252 | the lookup reaches an inherited property only for a subject that normalises to "constructor" |
| Knowledge.ConstructorNormalizes | EstudiantesFrontEnd/src/services/ChatbotService.ts:241-247 | "Constructor" normalises to "constructor" |
| Knowledge.ConstructorKeyThrows | EstudiantesFrontEnd/src/services/ChatbotService.ts:254-258 | every topic lookup for such a subject throws a `TypeError` |
| Knowledge.ConstructorLookupThrows | EstudiantesFrontEnd/src/services/ChatbotService.ts:254-258 | in the actual knowledge base, `getTopicStudyGuide("Constructor", t)` throws for every topic `t` |
| Knowledge.MateriaTopicCatalog | EstudiantesFrontEnd/src/services/ChatbotService.ts:249-252 | `getMateriaTopicCatalog` on own keys: a subject not in the knowledge base, after normalisation, has no topics |
| Knowledge.CatalogAgreesAsWritten | EstudiantesFrontEnd/src/services/ChatbotService.ts:249-258 | for every subject but "constructor", the own-key lookup and the written lookup agree, and so do the topic lookups built on them |
| Knowledge.TopicIn | EstudiantesFrontEnd/src/services/ChatbotService.ts:254-258 | `getTopicStudyGuide` yields a topic of the catalog whose normalised name equals the normalised query, or null exactly when no topic's name does |
| Knowledge.SubtopicIn | EstudiantesFrontEnd/src/services/ChatbotService.ts:260-275 | `getSubtopicStudyGuide` yields the topic found and one of that topic's subtopics whose name matches; it yields null exactly when the topic is missing or no subtopic matches |
| Knowledge.LookupsRespectEquivalence | EstudiantesFrontEnd/src/services/ChatbotService.ts:254-275 | the lookups see a name only through its normal form |
| Knowledge.SubtopicGuideAt | EstudiantesFrontEnd/src/services/ChatbotService.ts:260-275 | the lookup finds the first matching topic and, in it, the first matching subtopic |
| Knowledge.CalculusSubstitutionGuide | EstudiantesFrontEnd/src/services/ChatbotService.ts:21-53 | ("Cálculo Integral", "Integrales definidas", "Método de sustitución") finds the definite-integrals topic and its substitution subtopic |
| Knowledge.CalculusSubstitutionIn | EstudiantesFrontEnd/src/services/ChatbotService.ts:23-53 | the accented subtopic name finds the substitution guide in the calculus catalog |
| Knowledge.CalculusCatalog | EstudiantesFrontEnd/src/services/ChatbotService.ts:21 | the accented, capitalised "Cálculo Integral" finds the calculus catalog |
| Knowledge.CalculusSubject | EstudiantesFrontEnd/src/services/ChatbotService.ts:21 | "Cálculo Integral" normalises to the stored key "calculo integral" |
| Knowledge.CalculusTopic | EstudiantesFrontEnd/src/services/ChatbotService.ts:23 | the topic name is already in normal form |
| Knowledge.SubstitutionAccented | EstudiantesFrontEnd/src/services/ChatbotService.ts:37 | "Método de sustitución" normalises to "metodo de sustitucion" |
| Knowledge.SubstitutionPlain | EstudiantesFrontEnd/src/services/ChatbotService.ts:37 | the unaccented "Metodo de sustitucion" has the same normal form, so it finds the same guide |
| StudyGuide.StudyLinkLines | EstudiantesFrontEnd/src/services/ChatbotService.ts:335-346 | the links block is five lines, the first "Recursos adicionales:" |
| StudyGuide.StudyLinksAreFiveLines | EstudiantesFrontEnd/src/services/ChatbotService.ts:335-346 | the joined links block splits at line breaks into exactly those five lines |
| StudyGuide.EncodeAll | EstudiantesFrontEnd/src/services/ChatbotService.ts:336-337 | each search term is encoded on its own |
| StudyGuide.DecodeAllEncodeAll | EstudiantesFrontEnd/src/services/ChatbotService.ts:336-337 | decoding the encoded terms gives the terms back |
| StudyGuide.SearchTermsOfLink | EstudiantesFrontEnd/src/services/ChatbotService.ts:341-344 | a link of a prefix and `+`-joined encoded terms searches for exactly those terms |
| StudyGuide.SearchWordsUnreserved | EstudiantesFrontEnd/src/services/ChatbotService.ts:341-344 | the fixed words "explicacion" and "ejercicios" are their own encoding |
| StudyGuide.ThreeTermLink | EstudiantesFrontEnd/src/services/ChatbotService.ts:341 | a link of subject, topic and a fixed word searches for those three |
| StudyGuide.TwoTermLink | EstudiantesFrontEnd/src/services/ChatbotService.ts:342 | a link of subject and topic searches for those two |
| StudyGuide.OneTermLink | EstudiantesFrontEnd/src/services/ChatbotService.ts:343 | a link of the topic alone searches for the topic |
| StudyGuide.StudyLinkSearches | EstudiantesFrontEnd/src/services/ChatbotService.ts:335-346 | the YouTube, Scholar and general links search for the subject and the topic (two of them with one extra word); the Khan Academy link searches for the topic alone. The subject searched for is the topic when no subject is given |
| StudyGuide.Bullets | EstudiantesFrontEnd/src/services/ChatbotService.ts:293 | one `- item` line per item, in order |
| StudyGuide.SubtopicBullets | EstudiantesFrontEnd/src/services/ChatbotService.ts:321 | one `- name: summary` line per subtopic, in order |
| StudyGuide.PushBullets | EstudiantesFrontEnd/src/services/ChatbotService.ts:293 | the `forEach` push appends the bullets |
| StudyGuide.PushSubtopicBullets | EstudiantesFrontEnd/src/services/ChatbotService.ts:321 | the `forEach` push appends the subtopic bullets |
| StudyGuide.PushSection | EstudiantesFrontEnd/src/services/ChatbotService.ts:291-295 | a section is pushed only when its list is non-empty |
| StudyGuide.PushSubtopicSection | EstudiantesFrontEnd/src/services/ChatbotService.ts:319-323 | the related-subtopics section is pushed only when there are subtopics |
| StudyGuide.FormatStudyGuideResponse | EstudiantesFrontEnd/src/services/ChatbotService.ts:277-333 | the `push` sequence joins to the reference line list |
| StudyGuide.GuideShape | EstudiantesFrontEnd/src/services/ChatbotService.ts:285-332 | the reply opens with "materia - name" (the subtopic's name when one is given) and a blank line, and ends with the links block for that name |
| StudyGuide.InSection | EstudiantesFrontEnd/src/services/ChatbotService.ts:291-295 | a heading is in a section exactly when it is that section's heading and the list is non-empty |
| StudyGuide.HeadingInGuide | EstudiantesFrontEnd/src/services/ChatbotService.ts:283-332 | outside the sections the reply holds no heading |
| StudyGuide.SubtopicHeadings | EstudiantesFrontEnd/src/services/ChatbotService.ts:288-305 | for a subtopic, each of "Puntos clave", "Practica sugerida" and "Recursos recomendados" appears exactly when its list is non-empty |
| StudyGuide.TopicHeadings | EstudiantesFrontEnd/src/services/ChatbotService.ts:306-328 | for a whole topic, each of the four headings appears exactly when its list is non-empty |
| Uri.Utf8Char | EstudiantesFrontEnd/src/services/ChatbotService.ts:336 | one to four UTF-8 bytes per character, one exactly for ASCII |
| Uri.Utf8CharDecode | EstudiantesFrontEnd/src/services/ChatbotService.ts:336 | decoding reads back one encoded character and continues |
| Uri.Utf8TwoBytes | EstudiantesFrontEnd/src/services/ChatbotService.ts:336 | the two-byte case of that read-back |
| Uri.Utf8ThreeBytes | EstudiantesFrontEnd/src/services/ChatbotService.ts:336 | the three-byte case |
| Uri.Utf8FourBytes | EstudiantesFrontEnd/src/services/ChatbotService.ts:336 | the four-byte case |
| Uri.Utf8RoundTrip | EstudiantesFrontEnd/src/services/ChatbotService.ts:336 | UTF-8 decoding undoes UTF-8 encoding |
| Uri.HexValue | EstudiantesFrontEnd/src/services/ChatbotService.ts:336 | a hex digit's value is below 16, and each digit reads back its value |
| Uri.PercentByte | EstudiantesFrontEnd/src/services/ChatbotService.ts:336 | a byte stays one character exactly when it is an unreserved ASCII character; otherwise it becomes `%XX`. Either way only URI characters appear |
| Uri.PercentBytes | EstudiantesFrontEnd/src/services/ChatbotService.ts:336 | the escaped text consists of URI characters |
| Uri.PercentByteDecode | EstudiantesFrontEnd/src/services/ChatbotService.ts:336 | unescaping reads back one escaped byte and continues |
| Uri.PercentRoundTrip | EstudiantesFrontEnd/src/services/ChatbotService.ts:336 | unescaping undoes escaping |
| Uri.EncodeURIComponent | EstudiantesFrontEnd/src/services/ChatbotService.ts:336-337 | the encoding consists of unreserved characters, `%` and upper-case hex digits |
| Uri.EncodeRoundTrip | EstudiantesFrontEnd/src/services/ChatbotService.ts:336-337 | decoding gives back every encoded string |
| Uri.EncodedHasNoSeparators | EstudiantesFrontEnd/src/services/ChatbotService.ts:341-344 | an encoded component holds no `+`, space, line break, `&`, `=` or `#`, so it stays one search term of one line |
| Uri.EncodeUnreserved | EstudiantesFrontEnd/src/services/ChatbotService.ts:336 | a string of unreserved characters is its own encoding |
| Selection.SelectionSubtopics | EstudiantesFrontEnd/src/lib/geminiService.ts:965-969 | the subtopics copied into an option keep their titles, in order |
| Selection.SubtopicTitles | EstudiantesFrontEnd/src/lib/geminiService.ts:973 | the titles listed on the `Subtemas:` line, one per subtopic |
| Selection.TopicSelectionOf | EstudiantesFrontEnd/src/lib/geminiService.ts:946-1006 | the preparation is null exactly when no option is listed. Otherwise its state keeps the options, the source and the trimmed prompt, and its message is that prompt |
| Selection.PrepareTopicSelection | EstudiantesFrontEnd/src/lib/geminiService.ts:946-1006 | the `counter` loop and its pushes compute that preparation |
| Selection.CollectTopicOptions | EstudiantesFrontEnd/src/lib/geminiService.ts:953-986 | the loop over subjects computes the options and lines of all of them |
| Selection.SelectionStep | EstudiantesFrontEnd/src/lib/geminiService.ts:953-986 | one more subject extends the options and lines by its own, numbered on from the count so far |
| Selection.PushSubject | EstudiantesFrontEnd/src/lib/geminiService.ts:953-986 | one subject pushes its header, its titled topics and a blank line, only when it has topics |
| Selection.PushTopicOptions | EstudiantesFrontEnd/src/lib/geminiService.ts:959-985 | the loop over a subject's topics numbers the titled ones from the counter on and skips the rest |
| Selection.PushTopic | EstudiantesFrontEnd/src/lib/geminiService.ts:964-984 | one titled topic pushes its numbered line, its subtopic line when it has subtopics, and its option |
| Selection.NumberedConcat | EstudiantesFrontEnd/src/lib/geminiService.ts:964-984 | two numbered runs, the second numbered on from the first, make one numbered run |
| Selection.TopicOptionsNumbered | EstudiantesFrontEnd/src/lib/geminiService.ts:959-985 | a subject's options are its titled topics, in order, numbered consecutively from the counter |
| Selection.OptionsNumbered | EstudiantesFrontEnd/src/lib/geminiService.ts:946-986 | the options are exactly the titled topics, subject by subject and topic by topic, numbered "1", "2", … |
| Selection.TitledOfEmpty | EstudiantesFrontEnd/src/lib/geminiService.ts:960-962 | a subject offers nothing exactly when none of its topics has a title |
| Selection.TitledTopicsEmpty | EstudiantesFrontEnd/src/lib/geminiService.ts:988-990 | there is nothing to offer exactly when no topic of any subject has a title |
| Selection.PreparedSelection | EstudiantesFrontEnd/src/lib/geminiService.ts:946-1006 | `prepareTopicSelection` returns null exactly when no topic has a title. Otherwise the options are the titled topics numbered from "1", with as many options as titled topics, and the state keeps the source it was given |
| Selection.OptionIdsDistinct | EstudiantesFrontEnd/src/lib/geminiService.ts:964 | option ids are pairwise distinct |
| Selection.FirstDigitRun | EstudiantesFrontEnd/src/lib/geminiService.ts:1029 | `/(\d{1,2})/`: absent exactly when the message has no ASCII digit; otherwise one or two digits |
| Selection.ScanOptions | EstudiantesFrontEnd/src/lib/geminiService.ts:1038-1056 | the scan by name finds nothing exactly when no option yields a hit; otherwise the hit of the first option that yields one |
| Selection.ScanOptionsAt | EstudiantesFrontEnd/src/lib/geminiService.ts:1038-1056 | the first option that yields a hit decides the scan |
| Selection.EmptyTitleSelectsAnyMessage | EstudiantesFrontEnd/src/lib/geminiService.ts:1045-1050 | as written, a subtopic whose title normalises to nothing is selected by every message that does not name the topic itself |
| Selection.ScanOptionsSound | EstudiantesFrontEnd/src/lib/geminiService.ts:1038-1056 | with that case excluded, the scan selects a pending option, and the message names its topic or the subtopic reported |
| Selection.ByNumber | EstudiantesFrontEnd/src/lib/geminiService.ts:1034-1036 | the option found by number is a pending option whose id is the digit run; none exactly when there is no digit run or no option has that id |
| Selection.NumberSelects | EstudiantesFrontEnd/src/lib/geminiService.ts:1022-1036 | replying with an option's number below 100 selects that option, without a subtopic |
| Selection.NumberFound | EstudiantesFrontEnd/src/lib/geminiService.ts:1034-1036 | with options numbered from 1, a numeral below 100 finds the option it numbers |
| Selection.EarlierIdsDiffer | EstudiantesFrontEnd/src/lib/geminiService.ts:1035 | the options before the k-th carry other numbers than its own |
| Selection.ResolveByNumber | EstudiantesFrontEnd/src/lib/geminiService.ts:1034-1040 | an option found by number is chosen without trying names |
| Selection.NumeralIsItsOwnRun | EstudiantesFrontEnd/src/lib/geminiService.ts:1028-1029 | a numeral below 100 is already normal and is its own first digit run |
| Selection.NumeralIsNormal | EstudiantesFrontEnd/src/lib/geminiService.ts:1028 | a run of digits is unchanged by `normalizeText` |
| Selection.NoSelectionByThreeDigits | EstudiantesFrontEnd/src/lib/geminiService.ts:1029 | from 100 on an option can never be chosen by its number, because the digit run stops at two |
| Selection.ChosenFromOptions | EstudiantesFrontEnd/src/lib/geminiService.ts:1022-1070 | a choice is made only while a selection is pending, and only from its options |
| Selection.NothingPending | EstudiantesFrontEnd/src/lib/geminiService.ts:1023-1026 | without pending options the handler never answers |
| Selection.SubtopicItems | EstudiantesFrontEnd/src/lib/geminiService.ts:1167-1173 | one `- title` or `- title: description` line per subtopic, in order |
| Selection.TopicDetailEndsWithHint | EstudiantesFrontEnd/src/lib/geminiService.ts:1128-1181 | whichever way the detail reply is built, it closes by inviting another choice |
| Selection.DetailTextEndsWithHint | EstudiantesFrontEnd/src/lib/geminiService.ts:1131-1181 | each of the three ways of building it closes with that invitation |
| Selection.TopicDetailOpening | EstudiantesFrontEnd/src/lib/geminiService.ts:1128-1181 | the reply opens with "materia - name": the guide's subtopic when the knowledge base has it, else the guide's topic, else the option's topic |
| Selection.DetailTextOpening | EstudiantesFrontEnd/src/lib/geminiService.ts:1131-1181 | the same, given the two lookups' results |
| Selection.FallbackOpeningLine | EstudiantesFrontEnd/src/lib/geminiService.ts:1159-1160 | the reply without a guide opens with "materia - topic" |
| Selection.GuideOpening | EstudiantesFrontEnd/src/lib/geminiService.ts:1134-1143 | a study-guide reply, whatever follows it, opens with "materia - name" |
| Selection.FallbackLinks | EstudiantesFrontEnd/src/lib/geminiService.ts:1176 | the reply without a guide searches for the chosen subtopic, or for the topic when none was chosen |
| Selection.PushSubtopicItems | EstudiantesFrontEnd/src/lib/geminiService.ts:1167-1173 | the `forEach` push appends one line per subtopic |
| Selection.FallbackReplyLines | EstudiantesFrontEnd/src/lib/geminiService.ts:1159-1178 | the pushes compute the lines of the reply without a guide |
| Selection.PushClosing | EstudiantesFrontEnd/src/lib/geminiService.ts:1175-1178 | the closing pushes append the links and the invitation, each after a blank line |
| Selection.FormatTopicDetailResponse | EstudiantesFrontEnd/src/lib/geminiService.ts:1128-1181 | `formatTopicDetailResponse` computes the reference detail text, built on the own-key knowledge-base lookups (see Left out) |
| Selection.FindNamedSubtopic | EstudiantesFrontEnd/src/lib/geminiService.ts:1045-1051 | the inner loop, corrected: it finds the first subtopic whose non-empty normalised title the message contains (the code also matches an empty title; see Findings) |
| Selection.MatchOption | EstudiantesFrontEnd/src/lib/geminiService.ts:1040-1055 | one option, corrected: tried by its topic title first, then by its subtopic titles, a title only matching when its normal form is non-empty (see Findings) |
| Selection.FindNamedOption | EstudiantesFrontEnd/src/lib/geminiService.ts:1038-1056 | the outer loop computes the corrected scan by name, the first option yielding a hit (see Findings) |
| Selection.TryHandleTopicSelection | EstudiantesFrontEnd/src/lib/geminiService.ts:1022-1071 | `tryHandleTopicSelection` replies with what the corrected resolution of the message against the pending state yields (by number first, then by name), and writes nothing back |
| Chatbot.MentionedSubject | EstudiantesFrontEnd/src/lib/geminiService.ts:1187-1193 | the first named enrolled subject whose lower-cased name occurs in the lower-cased message; none exactly when there is no such subject |
| Chatbot.FirstMention | EstudiantesFrontEnd/src/lib/geminiService.ts:1187-1193 | the first such enrollment decides |
| Chatbot.UpdatedContext | EstudiantesFrontEnd/src/lib/geminiService.ts:1183-1208 | A subject the lower-cased message names becomes the last mentioned one: the first enrolled subject it contains. Otherwise the old one is kept. The query type becomes grades, else subjects, else improvement, by the first test the message passes, and is kept when it passes none. A help word ("mejorar", "ayuda", "consejo") sets the roadmap action, and without one the pending action is kept. The pending selection is never touched and no field is cleared |
| Chatbot.EquivalentEntries | EstudiantesFrontEnd/src/lib/geminiService.ts:1087 | the syllabus entries equivalent to the subject, and only those |
| Chatbot.OverviewTargets | EstudiantesFrontEnd/src/lib/geminiService.ts:1082-1092 | The targets are exactly the syllabus entries equivalent to the subject `findMateriaFromMessage` names, or else the only entry of a one-entry syllabus. They are empty exactly when the syllabus has more than one entry and none is equivalent to a named subject |
| Chatbot.TopicOptionsOf | EstudiantesFrontEnd/src/lib/geminiService.ts:1008-1020 | the options made directly from a subject's topics, one per topic, with id "0" |
| Chatbot.Overview | EstudiantesFrontEnd/src/lib/geminiService.ts:1073-1126 | the overview changes the pending selection only by offering a syllabus-sourced one, and never changes the query type |
| Chatbot.OverviewOutcomes | EstudiantesFrontEnd/src/lib/geminiService.ts:1078-1126 | No syllabus is reported exactly when there is none. A topic or subtopic of the single target named in the message gets its detail and keeps the context. Otherwise the titled topics of the targets (of the whole syllabus when there are none) are offered, awaiting a topic detail, and a single target becomes the subject last mentioned; with nothing titled, the reply says no topics are listed |
| Chatbot.Plans | EstudiantesFrontEnd/src/lib/geminiService.ts:843-851 | one improvement plan per low-graded enrollment, in order, with "esta materia" for a missing name |
| Chatbot.RoadmapSubjectsFacts | EstudiantesFrontEnd/src/lib/geminiService.ts:877-889 | Each subject the roadmap offers is a syllabus entry with topics, for a low-graded enrollment, and no two are equivalent. Every low-graded enrollment with a name whose first equivalent entry has topics has that entry offered, up to equivalence |
| Chatbot.RoadmapSubjectsSound | EstudiantesFrontEnd/src/lib/geminiService.ts:877-889 | each offered subject is a syllabus entry with topics, for one of the low-graded enrollments, and no two are equivalent |
| Chatbot.RoadmapSubjectsOfferAll | EstudiantesFrontEnd/src/lib/geminiService.ts:877-889 | each low-graded enrollment with a name whose entry has topics has that entry offered |
| Chatbot.AdmitCovers | EstudiantesFrontEnd/src/lib/geminiService.ts:880-887 | one enrollment keeps what was offered and offers its own entry when it has topics |
| Chatbot.CollectRoadmapSubjects | EstudiantesFrontEnd/src/lib/geminiService.ts:877-889 | the `forEach` collects those subjects |
| Chatbot.AdmitSubject | EstudiantesFrontEnd/src/lib/geminiService.ts:880-887 | one enrollment adds its syllabus entry only when it has topics and is not yet offered |
| Chatbot.Roadmap | EstudiantesFrontEnd/src/lib/geminiService.ts:830-903 | The roadmap keeps the query type and the mentioned subject. It changes the pending selection only in two ways: it offers a roadmap-sourced selection, or it clears one that was roadmap-sourced. RoadmapOutcomes states the rest |
| Chatbot.RoadmapOutcomes | EstudiantesFrontEnd/src/lib/geminiService.ts:830-903 | All subjects pass, with the context unchanged, exactly when no grade is low. Otherwise the reply reports the low grades and their plans. When the subjects offered have titled topics, their numbered selection is the prompt, left pending and awaiting a topic detail, with the rest of the context kept. When nothing is offered, there is no prompt and only a roadmap-sourced pending selection is withdrawn, and only when no subject had topics |
| Chatbot.AcademicDispatch | EstudiantesFrontEnd/src/lib/geminiService.ts:638-699 | The branch taken is the first hit of the fixed priority table: no enrollments, pending selection answered, specific query, syllabus, average, best, worst, roadmap or improvement, grade, subject list, classroom or section, and general |
| Chatbot.Academic | EstudiantesFrontEnd/src/lib/geminiService.ts:638-699 | the academic turn takes the branch of the priority table, and the first three branches leave the context untouched |
| Chatbot.SelectionKeepsContext | EstudiantesFrontEnd/src/lib/geminiService.ts:649-654 | a selection made from the pending options answers with that option's detail and leaves the context, pending selection included, unchanged |
| Chatbot.AcademicSelectionTurn | EstudiantesFrontEnd/src/lib/geminiService.ts:649-654 | a non-null answer of the selection handler is the reply, with the context unchanged |
| Chatbot.AcademicSpecificTurn | EstudiantesFrontEnd/src/lib/geminiService.ts:656-659 | a specific query is answered before the context update |
| Chatbot.AcademicLateTurn | EstudiantesFrontEnd/src/lib/geminiService.ts:661-698 | past the specific query, the reply is computed from the updated context |
| Chatbot.ContextUpdatedAfterEarlyBranches | EstudiantesFrontEnd/src/lib/geminiService.ts:643-672 | `updateConversationContext` runs only once the specific-query check has failed: the first three branches leave the context as it was, and the later ones record the query type |
| Chatbot.PendingSelectionChanges | EstudiantesFrontEnd/src/lib/geminiService.ts:674-689 | only the syllabus branch (offering a syllabus-sourced selection) and the roadmap branch (offering or clearing a roadmap-sourced one) change the pending selection |
| Chatbot.SeedHistory | EstudiantesFrontEnd/src/lib/geminiService.ts:1921-1929 | an existing history is kept, and only an empty one is seeded with the system prompt and the greeting |
| Chatbot.SeedIdempotent | EstudiantesFrontEnd/src/lib/geminiService.ts:1921-1929 | seeding twice is seeding once |
| Chatbot.TrimHistory | EstudiantesFrontEnd/src/lib/geminiService.ts:2001-2005 | the trimmed history has at most 12 entries and keeps its first entry. A history of 12 or fewer is kept; a longer one becomes the first entry plus the last 11 |
| Chatbot.AnswerText | EstudiantesFrontEnd/src/lib/geminiService.ts:1997 | the stored answer is never empty |
| Chatbot.ExchangeShape | EstudiantesFrontEnd/src/lib/geminiService.ts:1981-2005 | The exchange keeps the system message first. After an answer the history has at most 12 entries, and it ends with the user's message and the answer |
| Chatbot.FailedExchangeGrows | EstudiantesFrontEnd/src/lib/geminiService.ts:1981-1988 | after a failed completion the seeded history keeps the user's message and is not trimmed |
| Chatbot.RouteOf | EstudiantesFrontEnd/src/lib/geminiService.ts:1938-1974 | Login is required exactly when the syllabus is asked for or a selection is pending, and the user is not signed in. The academic path is taken exactly when a signed-in user's message matches a keyword predicate and user data are non-empty |
| Chatbot.PendingNeedsIntent | EstudiantesFrontEnd/src/lib/geminiService.ts:1938-1949 | a pending selection alone does not reach the academic path: without a keyword predicate a signed-in user's message goes to the local path |
| Chatbot.FallbackOf | EstudiantesFrontEnd/src/lib/geminiService.ts:1907-1919 | The canned reply greets, with the user's own name, exactly when the lower-cased message contains "hola" or "hi". Otherwise it explains grades exactly when the message is grade related, and gives the demo notice exactly when neither holds |
| Chatbot.SyllabusFor | EstudiantesFrontEnd/src/lib/geminiService.ts:1955-1964 | no syllabus is used unless it was requested and fetched |
| Chatbot.Send | EstudiantesFrontEnd/src/lib/geminiService.ts:1931-2018 | `sendMessage` keeps the system message first, and once in fallback mode stays there. It changes the history only outside fallback mode and then leaves the context alone |
| Chatbot.LoginGuardsSyllabus | EstudiantesFrontEnd/src/lib/geminiService.ts:1938-1941 | a syllabus question or a pending selection without a signed-in user is answered with the login requirement and changes nothing |
| Chatbot.AcademicAnswerNeeds | EstudiantesFrontEnd/src/lib/geminiService.ts:1944-1970 | an academic answer needs a signed-in user, a matching keyword predicate and non-empty user data, and never touches the history |
| Chatbot.AnsweredExchangeBounded | EstudiantesFrontEnd/src/lib/geminiService.ts:1980-2007 | An answered local exchange leaves between 2 and 12 entries, system message first. The last two entries are the user's message (prefixed with the user's name) and the answer |
| Chatbot.ChatbotService.constructor | EstudiantesFrontEnd/src/lib/geminiService.ts:18-65 | a new service starts with an empty history and context; it is in fallback mode exactly when the key is missing, does not start with "sk-", or the connection test fails |
| Chatbot.ChatbotService.InitializeChatHistory | EstudiantesFrontEnd/src/lib/geminiService.ts:1921-1929 | seeds the history only when it is empty |
| Chatbot.ChatbotService.TrimChatHistory | EstudiantesFrontEnd/src/lib/geminiService.ts:2001-2005 | trims the history to at most 12 entries, keeping the system message |
| Chatbot.ChatbotService.UpdateConversationContext | EstudiantesFrontEnd/src/lib/geminiService.ts:1183-1208 | the loop with `break` over enrollments, then the keyword tests, computes UpdatedContext: the first named subject, the first query type that applies and the roadmap action on a help word are recorded, and everything else is kept |
| Chatbot.ChatbotService.GenerateSyllabusOverview | EstudiantesFrontEnd/src/lib/geminiService.ts:1073-1126 | the reply and the new context are those of the overview, with its direct scan corrected (see Findings) |
| Chatbot.ChatbotService.GenerateRoadmapResponse | EstudiantesFrontEnd/src/lib/geminiService.ts:830-903 | the reply and the new context are those of Roadmap: the low grades and their plans, and the roadmap selection left pending (RoadmapOutcomes) |
| Chatbot.ChatbotService.GenerateAcademicResponse | EstudiantesFrontEnd/src/lib/geminiService.ts:638-699 | the reply and the new context are those of the academic turn |
| Chatbot.ChatbotService.AnswerUnhandled | EstudiantesFrontEnd/src/lib/geminiService.ts:656-698 | the same, once the selection handler has not answered |
| Chatbot.ChatbotService.AnswerByKeywords | EstudiantesFrontEnd/src/lib/geminiService.ts:661-698 | the same, once no specific query was found |
| Chatbot.ChatbotService.LateResponse | EstudiantesFrontEnd/src/lib/geminiService.ts:674-698 | the reply of the branch chosen, from the updated context |
| Chatbot.ChatbotService.SendMessage | EstudiantesFrontEnd/src/lib/geminiService.ts:1931-2018 | answer and new state are those of `Send`; the system message stays first, and `isInitialized` and `lastImageHash` are kept |
| Chatbot.ChatbotService.SendAcademicTurn | EstudiantesFrontEnd/src/lib/geminiService.ts:1944-1970 | the academic route of `Send` |
| Chatbot.ChatbotService.SendAcademic | EstudiantesFrontEnd/src/lib/geminiService.ts:1955-1969 | fetches nothing itself: the academic turn on the syllabus requested and received |
| Chatbot.ChatbotService.SendLocal | EstudiantesFrontEnd/src/lib/geminiService.ts:1976-2017 | the local route of `Send`: the canned reply in fallback mode, the exchange otherwise |
| Chatbot.ChatbotService.Converse | EstudiantesFrontEnd/src/lib/geminiService.ts:1980-2017 | The exchange with the completion service. An answer is stored and returned, without entering fallback mode. A failure falls back to the canned reply and enters fallback mode exactly when the key was rejected |
| Chatbot.ChatbotService.ResetChat | EstudiantesFrontEnd/src/lib/geminiService.ts:2034-2044 | restores the empty history and context, and keeps the fallback mode |

## Left out

- FindNamedSubtopic: uses the corrected title test of the second finding: a subtopic title whose normal form is empty names no message. The code matches such a title against every message, so a reply that is neither a number nor names the topic selects an untitled subtopic. `Selection.EmptyTitleSelectsAnyMessage` states what the code does.
- MatchOption: the same corrected test, for the topic title and the subtopic titles of one option.
- FindNamedOption: the same corrected test, over all pending options.
- TryHandleTopicSelection: resolves names with the corrected test, so that reply is left unresolved (null) where the code answers the untitled subtopic's detail. The detail text uses the own-key lookups described below.
- GenerateSyllabusOverview: its direct scan of the single target uses the corrected test, so for such a message the model offers the numbered list where the code answers the untitled subtopic's detail. The detail text uses the own-key lookups described below.
- FormatTopicDetailResponse: built on the own-key knowledge-base lookups of the first finding, so a subject that normalises to "constructor" is treated as absent from the knowledge base. The code throws a `TypeError` there. `Knowledge.ConstructorLookupThrows` states what the code does, and `Knowledge.CatalogAgreesAsWritten` that the two lookups agree for every other subject.
- TopicDetail: the same own-key lookups as FormatTopicDetailResponse.
- Send: for a pending option or overview target whose subject normalises to "constructor", the model answers with a detail reply without a guide. In the code, the `TypeError` the lookup throws reaches the `catch` of `sendMessage`, which goes on to the fallback reply or the completion exchange.
- The completion call. `testConnection`, `initializeService` creating the client, and the chat-completion request are network calls. Their outcomes are inputs instead: whether the connection test succeeds (`connects`), and the `Completion` (an answer, or a failure that says whether the key was rejected).
- Fetching data. `fetchUserData` and `fetchSyllabusData` are inputs of `sendMessage`, with `None` for a failed request.
- An `await` on a `console.log` is not modelled, and neither is the order in which asynchronous work interleaves.
- Voice and image handling are not modelled, because they are audio, images, timers and callbacks:
  - `sendMessageWithImage`, `generateImageHash` and `fileToBase64`;
  - `sendMessageWithAudio` and the two transcribers;
  - `analyzeVoiceIntent`, `extractEntities`, `executeVoiceCommand` and the `handle*Query` voice handlers.
- Of the voice code, only `basicIntentAnalysis` is modelled, and only its intent.
- The capture regular expressions of `detectSpecificQuery` are not replayed; the phrase each pattern captures (or "" for none) is an input. The pass order, the trim and the call to `buscarMateria` are modelled.
- `normalizeText` and the accent fold approximate Unicode. NFD decomposes the accented letters of Latin-1; letters are those of the Latin blocks; `toLowerCase` covers Basic Latin and Latin-1. These are the characters of Spanish text.
- `encodeURIComponent` is modelled exactly, lone surrogates aside: Dafny characters are Unicode scalar values.
- Grades are reals. `toFixed` formatting is left out. The `typeof`/`isNaN` filter of the worst-grade reply is left out, because a real is never NaN.
- `getSystemContext` is left out; its text is an input.
- The wording of the academic replies, including the bodies of `generateSpecificResponse`, `generateQueryResponse`, `generateMateriaDetalle`, `generateGradeResponse`, `generateSubjectResponse`, `generateClassroomResponse` and `generateGeneralResponse`, is left out. The `Reply` datatype names each answer and carries the data it reports. The texts of the topic-selection exchange and the study guides are modelled exactly.
- `formatResponse` returns its argument; it is omitted.
- `getServiceStatus` and `getChatHistory` only read fields; they are not modelled.
- The `openai` client field, the model name, `max_tokens` and `temperature` are left out.
- `isInitialized` is never set to true in the code; the model keeps the field and only `resetChat` writes it.
- `lastImageHash` is only used by the image code. The model keeps the field, and only `resetChat` writes it.
- `ChatbotService.knowledge` is a constant field equal to the knowledge base. The JavaScript module object is shared by reference, but nothing writes to it.
- The getFallbackResponse test `includes('hi')` also matches "hi" inside words such as "archivo". The model keeps that test as written.
- `EstudiantesFrontEnd/src/utils/tokenManager.ts`, the API wrappers, the Django models and the React components are not part of this model.

## Findings

| source | as written | input that shows it | evidently intended | confidence | as-written member | corrected member |
|---|---|---|---|---|---|---|
| EstudiantesFrontEnd/src/services/ChatbotService.ts:249-258 | `syllabusKnowledgeBase[key] \|\| []` looks the normalised name up on a plain object, so inherited properties are found too | a subject named "Constructor": the key "constructor" finds a function, and `topics.find` then throws a `TypeError` | unknown subjects have no topics | high (not executed) | Knowledge.ConstructorLookupThrows | Knowledge.CatalogAgreesAsWritten |
| EstudiantesFrontEnd/src/lib/geminiService.ts:1045-1050 | a title is matched by `normalizedMessage.includes(this.normalizeText(title))`, and a subtopic's title is `''` when the record has none (602-605) | a pending option with an untitled subtopic: any reply that does not name the topic selects that subtopic; likewise in the overview scan (1097-1107) | a title that normalises to nothing names nothing | medium (not executed) | Selection.EmptyTitleSelectsAnyMessage | Selection.ScanOptionsSound |
