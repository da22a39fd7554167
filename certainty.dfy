/**
 * The certainty analyzer (certainty_analyzer.py): a task's text is scored from a neutral
 * 50 by a fixed series of checks, each adding or subtracting a few points and possibly
 * giving a reason and a clarification question; the clamped score gives a level and a
 * recommended action. Scores are integer hundredths (0.15 is 15). What the regular
 * expressions find is an input (`Signals`); the substring, word and verb checks are modelled.
 */
module Certainty {
  import opened Wrappers
  import opened Strings

  const HighConfidenceVerbs: seq<string> := [
    "add", "create", "implement", "fix", "update", "remove", "delete",
    "rename", "refactor", "migrate", "upgrade", "install", "configure",
    "write", "modify", "change", "replace", "extract", "move", "copy",
    "integrate", "connect", "disconnect", "enable", "disable", "test"]

  const LowConfidenceMarkers: seq<string> := [
    "maybe", "possibly", "might", "could", "should consider",
    "think about", "explore", "investigate", "look into",
    "try to", "attempt to", "see if", "check if",
    "or something", "or maybe", "not sure", "unclear",
    "somehow", "whatever", "something like", "kind of"]

  const BroadTerms: seq<string> := [
    "everything", "all files", "entire", "whole codebase", "the system", "performance", "improve"]

  /** The characters `strip(".,!?:;")` removes from both ends of a word. */
  const Punctuation: set<char> := {'.', ',', '!', '?', ':', ';'}

  const BaseScore: int := 50
  const MarkerCap: nat := 3

  datatype Level = High | Medium | Low

  /** `CertaintyReason`: the factor, its delta in hundredths and the explanation. */
  datatype Reason = Reason(factor: string, delta: int, explanation: string)

  /** `ClarificationQuestion`. */
  datatype Question = Question(question: string, options: seq<string>, priority: int)

  /** `CertaintyAnalysis`. */
  datatype Analysis = Analysis(score: int, level: Level, reasons: seq<Reason>,
                               questions: seq<Question>, recommended: string)

  /** What the regular expressions would find; their matching is not modelled. */
  datatype Signals = Signals(
    questionFound: bool,           // some question pattern matches the lower-cased text
    specificMatches: seq<string>,  // what the specificity patterns find in the text, in pattern order
    scopeFound: bool,              // some scope indicator matches the lower-cased text
    alternativesFound: bool)       // some alternatives pattern matches the lower-cased text

  /** What one check gives: a delta, at most one reason and at most one question. */
  datatype Check = Check(delta: int, reason: Option<Reason>, question: Option<Question>)

  /** A check records its delta in its reason, and gives no reason only for a zero delta. */
  predicate Accounted(c: Check) {
    (c.reason.Some? ==> c.reason.value.delta == c.delta) && (c.reason.None? ==> c.delta == 0)
  }

  // ---------------------------------------------------------------- _combine_text

  /** An optional text as the parts list sees it: kept only when truthy. */
  function Present(o: Option<string>): seq<string> {
    if o.Some? && o.value != "" then [o.value] else []
  }

  function TextOf(o: Option<string>): string {
    if o.Some? then o.value else ""
  }

  /** The text analysed: content, then summary, then transcript, space-joined, skipping empty ones. */
  function CombineText(content: string, summary: Option<string>, transcript: Option<string>): string {
    Join([content] + Present(summary) + Present(transcript), ' ')
  }

  /**
   * The combined text starts with the content and its words are the content's, then the
   * summary's, then the transcript's; with neither of the two it is the content itself.
   */
  lemma CombineTextWords(content: string, summary: Option<string>, transcript: Option<string>)
    ensures StartsWith(CombineText(content, summary, transcript), content)
    ensures Words(CombineText(content, summary, transcript)) ==
            Words(content) + Words(TextOf(summary)) + Words(TextOf(transcript))
    ensures Present(summary) == [] && Present(transcript) == [] ==> CombineText(content, summary, transcript) == content
  {
    var a, b := TextOf(summary), TextOf(transcript);
    assert Words("") == [];
    var hasA, hasB := Present(summary) != [], Present(transcript) != [];
    assert !hasA ==> Words(a) == [] && Present(summary) == [];
    assert !hasB ==> Words(b) == [] && Present(transcript) == [];
    assert hasA ==> Present(summary) == [a];
    assert hasB ==> Present(transcript) == [b];
    var r := CombineText(content, summary, transcript);
    if !hasA && !hasB {
      assert [content] + Present(summary) + Present(transcript) == [content];
      assert r == content;
    } else if hasA && !hasB {
      assert [content] + Present(summary) + Present(transcript) == [content, a];
      JoinTwo(content, a);
      assert r == content + " " + a;
      WordsJoin(content, a);
    } else if !hasA && hasB {
      assert [content] + Present(summary) + Present(transcript) == [content, b];
      JoinTwo(content, b);
      assert r == content + " " + b;
      WordsJoin(content, b);
    } else {
      assert [content] + Present(summary) + Present(transcript) == [content, a, b];
      JoinThree(content, a, b);
      assert r == content + " " + (a + " " + b);
      WordsJoin(content, a + " " + b);
      WordsJoin(a, b);
    }
    assert StartsWith(r, content);
  }

  lemma JoinTwo(a: string, b: string)
    ensures Join([a, b], ' ') == a + " " + b
  {
    assert [a, b][1..] == [b];
  }

  lemma JoinThree(a: string, b: string, c: string)
    ensures Join([a, b, c], ' ') == a + " " + (b + " " + c)
  {
    assert [a, b, c][1..] == [b, c];
    JoinTwo(b, c);
  }

  // ---------------------------------------------------------------- _check_action_verbs

  function Clean(w: string): string {
    StripChars(w, Punctuation)
  }

  /** The first word of `words` that, cleaned, is one of `verbs`. */
  function FirstVerb(words: seq<string>, verbs: seq<string>): Option<string> {
    if words == [] then None
    else if Clean(words[0]) in verbs then Some(Clean(words[0]))
    else FirstVerb(words[1..], verbs)
  }

  /** FirstVerb finds the verb at the first position holding one, and None when there is none. */
  lemma {:induction false} FirstVerbMeaning(words: seq<string>, verbs: seq<string>)
    ensures FirstVerb(words, verbs).None? <==> forall i :: 0 <= i < |words| ==> Clean(words[i]) !in verbs
    ensures FirstVerb(words, verbs).Some? ==>
      exists i :: (&& 0 <= i < |words| && FirstVerb(words, verbs).value == Clean(words[i])
                   && Clean(words[i]) in verbs
                   && forall j :: 0 <= j < i ==> Clean(words[j]) !in verbs)
  {
    if words != [] {
      FirstVerbMeaning(words[1..], verbs);
      if Clean(words[0]) !in verbs && FirstVerb(words, verbs).Some? {
        var i :| 0 <= i < |words[1..]| && FirstVerb(words[1..], verbs).value == Clean(words[1..][i])
          && Clean(words[1..][i]) in verbs
          && forall j :: 0 <= j < i ==> Clean(words[1..][j]) !in verbs;
        assert forall j :: 0 <= j < i + 1 ==> Clean(words[j]) !in verbs by {
          forall j | 0 <= j < i + 1 ensures Clean(words[j]) !in verbs {
            if j > 0 { assert words[j] == words[1..][j - 1]; }
          }
        }
        assert words[i + 1] == words[1..][i];
      }
    }
  }

  function Window(words: seq<string>): seq<string> {
    if |words| <= 5 then words else words[..5]
  }

  const ActionVerb: string := "action_verb"

  /** `_check_action_verbs` on the lower-cased text. */
  function VerbCheck(text: string): Check {
    var words := Words(text);
    if words == [] then Check(0, None, None)
    else if Clean(words[0]) in HighConfidenceVerbs then
      Check(15, Some(Reason(ActionVerb, 15, "Starts with clear action verb: '" + Clean(words[0]) + "'")), None)
    else match FirstVerb(Window(words), HighConfidenceVerbs)
      case Some(v) => Check(8, Some(Reason(ActionVerb, 8, "Contains action verb: '" + v + "'")), None)
      case None => Check(-10, Some(Reason(ActionVerb, -10, "No clear action verb found")), None)
  }

  /**
   * The verb rule: an empty text gives 0 and no reason; a verb as the first word gives 15;
   * otherwise a verb among the first five words gives 8; otherwise -10. No question.
   */
  lemma VerbCheckCases(text: string)
    ensures var c := VerbCheck(text); var words := Words(text);
      && Accounted(c) && c.question.None?
      && (c.delta == 0 <==> words == [])
      && (c.delta == 15 <==> words != [] && Clean(words[0]) in HighConfidenceVerbs)
      && (c.delta == 8 <==> words != [] && Clean(words[0]) !in HighConfidenceVerbs
                            && exists i :: 0 <= i < |words| && i < 5 && Clean(words[i]) in HighConfidenceVerbs)
      && (c.delta == -10 <==> words != [] && forall i :: 0 <= i < |words| && i < 5 ==> Clean(words[i]) !in HighConfidenceVerbs)
  {
    var words := Words(text);
    var w := Window(words);
    FirstVerbMeaning(w, HighConfidenceVerbs);
    assert forall i :: 0 <= i < |words| && i < 5 ==> i < |w| && w[i] == words[i];
  }

  /** The loop of `_check_action_verbs` over the first five words. */
  method CheckActionVerbs(text: string) returns (c: Check)
    ensures c == VerbCheck(text)
  {
    var words := Words(text);
    if |words| == 0 {
      return Check(0, None, None);
    }
    var first := Clean(words[0]);
    if first in HighConfidenceVerbs {
      return Check(15, Some(Reason(ActionVerb, 15, "Starts with clear action verb: '" + first + "'")), None);
    }
    var window := if |words| <= 5 then words else words[..5];
    var i := 0;
    while i < |window|
      invariant 0 <= i <= |window|
      invariant FirstVerb(Window(words), HighConfidenceVerbs) == FirstVerb(window[i..], HighConfidenceVerbs)
    {
      var cleaned := Clean(window[i]);
      if cleaned in HighConfidenceVerbs {
        return Check(8, Some(Reason(ActionVerb, 8, "Contains action verb: '" + cleaned + "'")), None);
      }
      assert window[i..][1..] == window[i + 1..];
      i := i + 1;
    }
    return Check(-10, Some(Reason(ActionVerb, -10, "No clear action verb found")), None);
  }

  // ---------------------------------------------------------------- _check_low_confidence_markers

  /** The markers of `ms` that occur in `text`, in list order. */
  function Occurring(text: string, ms: seq<string>): seq<string> {
    if ms == [] then []
    else Occurring(text, ms[..|ms| - 1]) + (if Contains(text, ms[|ms| - 1]) then [ms[|ms| - 1]] else [])
  }

  /** Looking at a prefix of the list finds a prefix of what the whole list finds. */
  lemma {:induction false} OccurringPrefix(text: string, ms: seq<string>, i: nat)
    requires i <= |ms|
    ensures Occurring(text, ms[..i]) <= Occurring(text, ms)
    decreases |ms| - i
  {
    if i < |ms| {
      var init := ms[..|ms| - 1];
      assert init[..i] == ms[..i];
      OccurringPrefix(text, init, i);
    } else {
      assert ms[..i] == ms;
    }
  }

  /** Exactly the markers that occur are found, each once per list entry. */
  lemma {:induction false} OccurringMeaning(text: string, ms: seq<string>)
    ensures forall m :: m in Occurring(text, ms) ==> m in ms && Contains(text, m)
    ensures Occurring(text, ms) == [] <==> forall i :: 0 <= i < |ms| ==> !Contains(text, ms[i])
    decreases |ms|
  {
    if ms != [] {
      var init := ms[..|ms| - 1];
      OccurringMeaning(text, init);
      assert forall m :: m in init ==> m in ms;
      assert forall i :: 0 <= i < |init| ==> ms[i] == init[i];
    }
  }

  function MarkerReason(m: string): Reason {
    Reason("uncertainty_marker", -10, "Contains uncertainty marker: '" + m + "'")
  }

  function MarkerReasons(ms: seq<string>): (r: seq<Reason>)
    ensures |r| == |ms|
  {
    seq(|ms|, i requires 0 <= i < |ms| => MarkerReason(ms[i]))
  }

  /** The markers the loop reports: those occurring, up to the first three. */
  function ReportedMarkers(text: string, markers: seq<string>): seq<string> {
    var found := Occurring(text, markers);
    if |found| <= MarkerCap then found else found[..MarkerCap]
  }

  /** `_check_low_confidence_markers`: -10 and a reason per reported marker. */
  function MarkerCheck(text: string, markers: seq<string>): (int, seq<Reason>) {
    var ms := ReportedMarkers(text, markers);
    (-10 * |ms|, MarkerReasons(ms))
  }

  /**
   * At most three reasons, each naming a marker that occurs in the text, in list order;
   * the total is -10 per reason, so between -30 and 0, and 0 exactly when no marker
   * occurs.
   */
  lemma MarkerCheckBounds(text: string, markers: seq<string>)
    ensures var (total, reasons) := MarkerCheck(text, markers);
      && |reasons| <= MarkerCap && total == -10 * |reasons| && -30 <= total <= 0
      && (forall k :: 0 <= k < |reasons| ==> exists m :: m in markers && Contains(text, m) && reasons[k] == MarkerReason(m))
      && (total == 0 <==> forall i :: 0 <= i < |markers| ==> !Contains(text, markers[i]))
  {
    var found := Occurring(text, markers);
    var ms := ReportedMarkers(text, markers);
    OccurringMeaning(text, markers);
    assert forall m :: m in ms ==> m in found;
    assert ms == [] <==> found == [];
    forall k | 0 <= k < |ms|
      ensures exists m :: m in markers && Contains(text, m) && MarkerReasons(ms)[k] == MarkerReason(m)
    {
      assert ms[k] in found;
    }
  }

  /** The marker loop over the class's list `markers`: a running total, one reason per marker found, and a break at -30. */
  method CheckLowConfidenceMarkers(text: string, markers: seq<string>) returns (total: int, reasons: seq<Reason>)
    ensures (total, reasons) == MarkerCheck(text, markers)
  {
    total := 0;
    reasons := [];
    ghost var found: seq<string> := [];
    var i := 0;
    while i < |markers|
      invariant 0 <= i <= |markers|
      invariant found == Occurring(text, markers[..i])
      invariant |found| < MarkerCap
      invariant total == -10 * |found| && reasons == MarkerReasons(found)
    {
      var marker := markers[i];
      OccurringStep(text, markers, i);
      if Contains(text, marker) {
        total := total - 10;
        MarkerReasonsAppend(found, marker);
        reasons := reasons + [MarkerReason(marker)];
        found := found + [marker];
        if total <= -30 {
          OccurringCap(text, markers, i + 1, found);
          return;
        }
      }
      i := i + 1;
    }
    assert markers[..i] == markers;
  }

  lemma OccurringStep(text: string, ms: seq<string>, i: nat)
    requires i < |ms|
    ensures Occurring(text, ms[..i + 1]) ==
            Occurring(text, ms[..i]) + (if Contains(text, ms[i]) then [ms[i]] else [])
  {
    assert ms[..i + 1][..i] == ms[..i];
  }

  lemma MarkerReasonsAppend(found: seq<string>, m: string)
    ensures MarkerReasons(found + [m]) == MarkerReasons(found) + [MarkerReason(m)]
  {
  }

  /** Once the first `i` markers of the list have produced three, those are the first three of the whole list. */
  lemma OccurringCap(text: string, ms: seq<string>, i: nat, found: seq<string>)
    requires i <= |ms| && found == Occurring(text, ms[..i]) && |found| == MarkerCap
    ensures var all := Occurring(text, ms); (if |all| <= MarkerCap then all else all[..MarkerCap]) == found
  {
    OccurringPrefix(text, ms, i);
    var all := Occurring(text, ms);
    assert all[..MarkerCap] == found;
    if |all| == MarkerCap {
      assert all == all[..MarkerCap];
    }
  }

  // ---------------------------------------------------------------- the other checks

  const QuestionPrompt: Question := Question(
    "The task seems to ask a question. Can you clarify what action to take?",
    ["Investigate and recommend", "Make a decision for me", "Skip this task"], 2)

  const ScopePrompt: Question := Question(
    "The task scope seems broad. Can you narrow it down?",
    ["Focus on most critical area", "Start with a specific file", "Analyze first, then decide"], 3)

  const DetailPrompt: Question := Question(
    "Can you provide more detail about what specifically needs to be done?", [], 4)

  const ApproachPrompt: Question := Question("Which approach should I take?", [], 5)

  /** `_check_questions`: -15 and a priority-2 question when a question pattern matched. */
  function QuestionCheck(sig: Signals): (c: Check)
    ensures Accounted(c)
    ensures sig.questionFound <==> c.question.Some?
    ensures c.question.Some? ==> c.delta == -15 && c.question.value.priority == 2
  {
    if sig.questionFound then
      Check(-15, Some(Reason("question_present", -15, "Task contains questions or uncertainty")), Some(QuestionPrompt))
    else Check(0, None, None)
  }

  /** `", ".join(ms)`. */
  function CommaJoin(ms: seq<string>): string {
    if ms == [] then "" else if |ms| == 1 then ms[0] else ms[0] + ", " + CommaJoin(ms[1..])
  }

  function SpecificityDelta(n: nat): int {
    if n >= 3 then 20 else if n >= 1 then 10 else -5
  }

  /** `_check_specificity`: the bucket of the number of matches. */
  function SpecificityCheck(sig: Signals): (c: Check)
    ensures Accounted(c) && c.question.None? && c.reason.Some?
    ensures c.delta == SpecificityDelta(|sig.specificMatches|)
  {
    var ms := sig.specificMatches;
    if |ms| >= 3 then
      Check(20, Some(Reason("high_specificity", 20, "Multiple specific references found (" + IntToString(|ms|) + " items)")), None)
    else if |ms| >= 1 then
      Check(10, Some(Reason("specificity", 10, "Contains specific references: " + CommaJoin(ms))), None)
    else
      Check(-5, Some(Reason("low_specificity", -5, "No specific file/function references found")), None)
  }

  /** More references never lower the specificity delta; it is one of -5, 10, 20. */
  lemma SpecificityMonotone(a: nat, b: nat)
    requires a <= b
    ensures SpecificityDelta(a) <= SpecificityDelta(b)
    ensures SpecificityDelta(a) in {-5, 10, 20}
  {
  }

  /** `any(term in text for term in broad_terms)`. */
  predicate HasBroadTerm(text: string) {
    exists i :: 0 <= i < |BroadTerms| && Contains(text, BroadTerms[i])
  }

  /** `_check_scope`: a broad term costs 15 and asks to narrow; a clear scope alone gains 10. */
  function ScopeCheck(text: string, sig: Signals): (c: Check)
    ensures Accounted(c)
    ensures HasBroadTerm(text) ==> c.delta == -15 && c.question == Some(ScopePrompt)
    ensures !HasBroadTerm(text) ==> c.question.None? && c.delta == (if sig.scopeFound then 10 else 0)
  {
    if sig.scopeFound && !HasBroadTerm(text) then
      Check(10, Some(Reason("clear_scope", 10, "Task has well-defined scope")), None)
    else if HasBroadTerm(text) then
      Check(-15, Some(Reason("broad_scope", -15, "Task scope is very broad")), Some(ScopePrompt))
    else Check(0, None, None)
  }

  function LengthDelta(n: nat): int {
    if n < 5 then -20 else if n < 10 then -5 else if n > 50 then 10 else 0
  }

  /** `_check_content_length`: the bucket of the number of words of the content alone. */
  function LengthCheck(content: string): (c: Check)
    ensures Accounted(c)
    ensures c.delta == LengthDelta(|Words(content)|)
    ensures c.question.Some? <==> |Words(content)| < 5
    ensures c.question.Some? ==> c.question.value.priority == 4
  {
    var n := |Words(content)|;
    if n < 5 then
      Check(-20, Some(Reason("very_short", -20, "Task description very short (" + IntToString(n) + " words)")), Some(DetailPrompt))
    else if n < 10 then
      Check(-5, Some(Reason("short", -5, "Task description brief (" + IntToString(n) + " words)")), None)
    else if n > 50 then
      Check(10, Some(Reason("detailed", 10, "Task has detailed description")), None)
    else Check(0, None, None)
  }

  /** A longer description never scores lower: -20 below 5 words, -5 below 10, 0 up to 50, then 10. */
  lemma LengthMonotone(a: nat, b: nat)
    requires a <= b
    ensures LengthDelta(a) <= LengthDelta(b)
    ensures LengthDelta(a) in {-20, -5, 0, 10}
  {
  }

  /** `_check_alternatives`: -15 and a priority-5 question when alternatives are offered. */
  function AlternativesCheck(sig: Signals): (c: Check)
    ensures Accounted(c)
    ensures sig.alternativesFound <==> c.question.Some?
    ensures c.question.Some? ==> c.delta == -15 && c.question.value.priority == 5
  {
    if sig.alternativesFound then
      Check(-15, Some(Reason("multiple_alternatives", -15, "Task presents multiple alternatives")), Some(ApproachPrompt))
    else Check(0, None, None)
  }

  // ---------------------------------------------------------------- decision

  /** `max(0.0, min(1.0, score))`. */
  function Clamp(score: int): (r: int)
    ensures 0 <= r <= 100
    ensures 0 <= score <= 100 ==> r == score
    ensures score < 0 ==> r == 0
    ensures score > 100 ==> r == 100
  {
    if score < 0 then 0 else if score > 100 then 100 else score
  }

  function LevelOf(score: int): (l: Level)
    ensures l == High <==> score >= 70
    ensures l == Medium <==> 40 <= score < 70
    ensures l == Low <==> score < 40
  {
    if score >= 70 then High else if score >= 40 then Medium else Low
  }

  /** `_get_recommended_action`. */
  function RecommendedAction(level: Level, questions: seq<Question>): (r: string)
    ensures level == High <==> r == "execute"
    ensures level == Medium <==> r == "execute_with_plan"
    ensures level == Low && questions != [] <==> r == "clarify"
    ensures level == Low && questions == [] <==> r == "skip_or_clarify"
  {
    match level
    case High => "execute"
    case Medium => "execute_with_plan"
    case Low => if questions != [] then "clarify" else "skip_or_clarify"
  }

  // ---------------------------------------------------------------- sorting questions

  predicate SortedByPriority(qs: seq<Question>) {
    forall i, j :: 0 <= i < j < |qs| ==> qs[i].priority >= qs[j].priority
  }

  /** Place `q`, which came before all of `s`, ahead of the first entry of no higher priority. */
  function Insert(q: Question, s: seq<Question>): (r: seq<Question>)
    ensures multiset(r) == multiset(s) + multiset{q}
    ensures |r| == |s| + 1
  {
    if s == [] || s[0].priority <= q.priority then [q] + s
    else assert s == [s[0]] + s[1..]; [s[0]] + Insert(q, s[1..])
  }

  lemma {:induction false} InsertSorted(q: Question, s: seq<Question>)
    requires SortedByPriority(s)
    ensures SortedByPriority(Insert(q, s))
    ensures Insert(q, s)[0] == q || (s != [] && Insert(q, s)[0] == s[0])
    decreases |s|
  {
    if !(s == [] || s[0].priority <= q.priority) {
      var rest := s[1..];
      assert SortedByPriority(rest);
      InsertSorted(q, rest);
      var r := Insert(q, rest);
      assert s[0].priority >= r[0].priority;
      var out := [s[0]] + r;
      forall i, j | 0 <= i < j < |out| ensures out[i].priority >= out[j].priority {
        if i == 0 {
          assert out[j] == r[j - 1];
          if j - 1 > 0 { assert r[0].priority >= r[j - 1].priority; }
        } else {
          assert out[i] == r[i - 1] && out[j] == r[j - 1];
        }
      }
    }
  }

  /** `questions.sort(key=lambda q: -q.priority)`, a stable sort by descending priority. */
  function SortByPriority(qs: seq<Question>): seq<Question> {
    if qs == [] then [] else Insert(qs[0], SortByPriority(qs[1..]))
  }

  /** The sort orders by descending priority and keeps every question. */
  lemma {:induction false} SortByPriorityCorrect(qs: seq<Question>)
    ensures SortedByPriority(SortByPriority(qs))
    ensures multiset(SortByPriority(qs)) == multiset(qs)
  {
    if qs != [] {
      SortByPriorityCorrect(qs[1..]);
      InsertSorted(qs[0], SortByPriority(qs[1..]));
      assert qs == [qs[0]] + qs[1..];
    }
  }

  predicate StrictlyAscending(qs: seq<Question>) {
    forall i, j :: 0 <= i < j < |qs| ==> qs[i].priority < qs[j].priority
  }

  function Reverse(qs: seq<Question>): (r: seq<Question>)
    ensures |r| == |qs|
  {
    if qs == [] then [] else Reverse(qs[1..]) + [qs[0]]
  }

  lemma {:induction false} InsertLast(q: Question, s: seq<Question>)
    requires forall k :: 0 <= k < |s| ==> s[k].priority > q.priority
    ensures Insert(q, s) == s + [q]
    decreases |s|
  {
    if s != [] {
      InsertLast(q, s[1..]);
      assert [s[0]] + (s[1..] + [q]) == s + [q];
    }
  }

  lemma {:induction false} ReverseElements(qs: seq<Question>)
    ensures forall k :: 0 <= k < |qs| ==> Reverse(qs)[k] == qs[|qs| - 1 - k]
  {
    if qs != [] {
      ReverseElements(qs[1..]);
    }
  }

  /** Questions gathered in strictly ascending priority come out in reverse order. */
  lemma {:induction false} SortAscendingReverses(qs: seq<Question>)
    requires StrictlyAscending(qs)
    ensures SortByPriority(qs) == Reverse(qs)
  {
    if qs != [] {
      SortAscendingReverses(qs[1..]);
      ReverseElements(qs[1..]);
      var rest := Reverse(qs[1..]);
      assert forall k :: 0 <= k < |rest| ==> rest[k].priority > qs[0].priority by {
        forall k | 0 <= k < |rest| ensures rest[k].priority > qs[0].priority {
          assert rest[k] == qs[|qs| - 1 - k];
        }
      }
      InsertLast(qs[0], rest);
    }
  }

  // ---------------------------------------------------------------- analyze

  function ReasonOf(c: Check): seq<Reason> {
    if c.reason.Some? then [c.reason.value] else []
  }

  function QuestionOf(c: Check): seq<Question> {
    if c.question.Some? then [c.question.value] else []
  }

  function SumDeltas(rs: seq<Reason>): int {
    if rs == [] then 0 else SumDeltas(rs[..|rs| - 1]) + rs[|rs| - 1].delta
  }

  function FullTextLower(content: string, summary: Option<string>, transcript: Option<string>): string {
    Lower(CombineText(content, summary, transcript))
  }

  /** The results of the seven checks of `analyze`, in the order it runs them. */
  datatype Checks = Checks(verb: Check, markerTotal: int, markerReasons: seq<Reason>, question: Check,
                           specific: Check, scope: Check, length: Check, alternatives: Check)

  function RunChecks(content: string, summary: Option<string>, transcript: Option<string>, sig: Signals): Checks {
    var lower := FullTextLower(content, summary, transcript);
    var (markerTotal, markerReasons) := MarkerCheck(lower, LowConfidenceMarkers);
    Checks(VerbCheck(lower), markerTotal, markerReasons, QuestionCheck(sig), SpecificityCheck(sig),
           ScopeCheck(lower, sig), LengthCheck(content), AlternativesCheck(sig))
  }

  /** The questions in the order `analyze` appends them, before sorting. */
  function GatheredQuestions(c: Checks): seq<Question> {
    QuestionOf(c.question) + QuestionOf(c.scope) + QuestionOf(c.length) + QuestionOf(c.alternatives)
  }

  function GatheredReasons(c: Checks): seq<Reason> {
    ReasonOf(c.verb) + c.markerReasons + ReasonOf(c.question) + ReasonOf(c.specific)
      + ReasonOf(c.scope) + ReasonOf(c.length) + ReasonOf(c.alternatives)
  }

  /** The deltas summed onto 50 and clamped, the level, the sorted questions and the recommendation. */
  function RawScore(c: Checks): int {
    BaseScore + c.verb.delta + c.markerTotal + c.question.delta + c.specific.delta
      + c.scope.delta + c.length.delta + c.alternatives.delta
  }

  function Assemble(c: Checks): Analysis {
    var score := Clamp(RawScore(c));
    var level := LevelOf(score);
    var questions := SortByPriority(GatheredQuestions(c));
    Analysis(score, level, GatheredReasons(c), questions, RecommendedAction(level, questions))
  }

  /** `analyze`: every check in order, then the assembled result. */
  function AnalyzeSpec(content: string, summary: Option<string>, transcript: Option<string>, sig: Signals): Analysis {
    Assemble(RunChecks(content, summary, transcript, sig))
  }

  /** The body of `analyze` up to the clamp: run the checks, summing deltas and appending reasons and questions. */
  method RunAnalysisChecks(content: string, summary: Option<string>, transcript: Option<string>, sig: Signals)
    returns (score: int, reasons: seq<Reason>, questions: seq<Question>)
    ensures var c := RunChecks(content, summary, transcript, sig);
      score == RawScore(c) && reasons == GatheredReasons(c) && questions == GatheredQuestions(c)
  {
    var lower := Lower(CombineText(content, summary, transcript));
    score, reasons, questions := BaseScore, [], [];

    var verb := CheckActionVerbs(lower);
    score, reasons := AddReason(score, reasons, verb);
    assert reasons == ReasonOf(verb);

    var markerTotal, markerReasons := CheckLowConfidenceMarkers(lower, LowConfidenceMarkers);
    score := score + markerTotal;
    reasons := reasons + markerReasons;

    var question := QuestionCheck(sig);
    score, reasons, questions := Apply(score, reasons, questions, question);
    var specific := SpecificityCheck(sig);
    score, reasons := AddReason(score, reasons, specific);
    assert questions == QuestionOf(question);
    var scope := ScopeCheck(lower, sig);
    score, reasons, questions := Apply(score, reasons, questions, scope);
    var length := LengthCheck(content);
    score, reasons, questions := Apply(score, reasons, questions, length);
    var alternatives := AlternativesCheck(sig);
    score, reasons, questions := Apply(score, reasons, questions, alternatives);

    ghost var c := RunChecks(content, summary, transcript, sig);
    assert c == Checks(verb, markerTotal, markerReasons, question, specific, scope, length, alternatives);
  }

  /** Add the delta of a check that asks nothing (verbs, specificity) and record its reason. */
  method AddReason(score: int, reasons: seq<Reason>, c: Check) returns (score': int, reasons': seq<Reason>)
    ensures score' == score + c.delta && reasons' == reasons + ReasonOf(c)
  {
    score' := score + c.delta;
    reasons' := reasons;
    if c.reason.Some? { reasons' := reasons' + [c.reason.value]; }
  }

  /** Add a check's delta to the score and record its reason and question. */
  method Apply(score: int, reasons: seq<Reason>, questions: seq<Question>, c: Check)
    returns (score': int, reasons': seq<Reason>, questions': seq<Question>)
    ensures score' == score + c.delta
    ensures reasons' == reasons + ReasonOf(c) && questions' == questions + QuestionOf(c)
  {
    score', reasons' := AddReason(score, reasons, c);
    questions' := questions;
    if c.question.Some? { questions' := questions' + [c.question.value]; }
  }

  /** `analyze`: the checks, then clamp, band, sort the questions in place and recommend. */
  method Analyze(content: string, summary: Option<string>, transcript: Option<string>, sig: Signals)
    returns (a: Analysis)
    ensures a == AnalyzeSpec(content, summary, transcript, sig)
  {
    var score, reasons, questions := RunAnalysisChecks(content, summary, transcript, sig);
    score := Clamp(score);
    var level := LevelOf(score);
    questions := SortByPriority(questions);
    a := Analysis(score, level, reasons, questions, RecommendedAction(level, questions));
  }

  // ---------------------------------------------------------------- what an analysis promises

  lemma {:induction false} SumDeltasAppend(a: seq<Reason>, b: seq<Reason>)
    ensures SumDeltas(a + b) == SumDeltas(a) + SumDeltas(b)
    decreases |b|
  {
    if b == [] {
      assert a + b == a;
    } else {
      assert (a + b)[..|a + b| - 1] == a + b[..|b| - 1];
      SumDeltasAppend(a, b[..|b| - 1]);
    }
  }

  lemma {:induction false} SumMarkerReasons(ms: seq<string>)
    ensures SumDeltas(MarkerReasons(ms)) == -10 * |ms|
    decreases |ms|
  {
    if ms != [] {
      var init := ms[..|ms| - 1];
      assert MarkerReasons(ms)[..|ms| - 1] == MarkerReasons(init);
      SumMarkerReasons(init);
    }
  }

  lemma SumReasonOf(c: Check)
    requires Accounted(c)
    ensures SumDeltas(ReasonOf(c)) == c.delta
  {
    if c.reason.Some? {
      assert ReasonOf(c)[..0] == [];
    }
  }

  /** What each check is shown above to give: deltas recorded in reasons, questions of fixed priority. */
  predicate WellFormed(c: Checks) {
    && Accounted(c.verb) && Accounted(c.question) && Accounted(c.specific)
    && Accounted(c.scope) && Accounted(c.length) && Accounted(c.alternatives)
    && c.markerTotal == SumDeltas(c.markerReasons) && |c.markerReasons| <= MarkerCap
    && c.specific.reason.Some?
    && (c.question.question.Some? ==> c.question.question.value.priority == 2)
    && (c.scope.question.Some? ==> c.scope.question.value.priority == 3)
    && (c.length.question.Some? ==> c.length.question.value.priority == 4)
    && (c.alternatives.question.Some? ==> c.alternatives.question.value.priority == 5)
  }

  lemma RunChecksWellFormed(content: string, summary: Option<string>, transcript: Option<string>, sig: Signals)
    ensures WellFormed(RunChecks(content, summary, transcript, sig))
  {
    var lower := FullTextLower(content, summary, transcript);
    VerbCheckCases(lower);
    MarkerCheckBounds(lower, LowConfidenceMarkers);
    SumMarkerReasons(ReportedMarkers(lower, LowConfidenceMarkers));
  }

  lemma AssembleScore(c: Checks)
    requires WellFormed(c)
    ensures var a := Assemble(c);
      && 0 <= a.score <= 100
      && a.score == Clamp(BaseScore + SumDeltas(a.reasons))
      && a.level == LevelOf(a.score)
      && 1 <= |a.reasons| <= 9
  {
    SumReasonOf(c.verb);
    SumReasonOf(c.question);
    SumReasonOf(c.specific);
    SumReasonOf(c.scope);
    SumReasonOf(c.length);
    SumReasonOf(c.alternatives);
    var r1 := ReasonOf(c.verb) + c.markerReasons;
    var r2 := r1 + ReasonOf(c.question);
    var r3 := r2 + ReasonOf(c.specific);
    var r4 := r3 + ReasonOf(c.scope);
    var r5 := r4 + ReasonOf(c.length);
    SumDeltasAppend(ReasonOf(c.verb), c.markerReasons);
    SumDeltasAppend(r1, ReasonOf(c.question));
    SumDeltasAppend(r2, ReasonOf(c.specific));
    SumDeltasAppend(r3, ReasonOf(c.scope));
    SumDeltasAppend(r4, ReasonOf(c.length));
    SumDeltasAppend(r5, ReasonOf(c.alternatives));
  }

  /** The gathered questions have priorities 2, 3, 4, 5 with absent ones skipped. */
  lemma GatheredAscending(c: Checks)
    requires WellFormed(c)
    ensures StrictlyAscending(GatheredQuestions(c)) && |GatheredQuestions(c)| <= 4
  {
    var g0: seq<Question> := [];
    AscendingStep(g0, c.question, 2);
    var g1 := g0 + QuestionOf(c.question);
    AscendingStep(g1, c.scope, 3);
    var g2 := g1 + QuestionOf(c.scope);
    AscendingStep(g2, c.length, 4);
    var g3 := g2 + QuestionOf(c.length);
    AscendingStep(g3, c.alternatives, 5);
    assert GatheredQuestions(c) == g3 + QuestionOf(c.alternatives);
  }

  lemma AssembleQuestions(c: Checks)
    requires WellFormed(c)
    ensures var a := Assemble(c);
      && |a.questions| <= 4
      && SortedByPriority(a.questions)
      && multiset(a.questions) == multiset(GatheredQuestions(c))
      && a.questions == Reverse(GatheredQuestions(c))
  {
    var gathered := GatheredQuestions(c);
    GatheredAscending(c);
    SortByPriorityCorrect(gathered);
    SortAscendingReverses(gathered);
    assert Assemble(c).questions == SortByPriority(gathered);
  }

  /**
   * Every point added or taken is recorded in a reason, so the score is the clamped sum of
   * the reasons' deltas on top of 50; it lies in 0..100 and its band gives the level.
   * Specificity always gives a reason, and there are at most nine.
   */
  lemma AnalysisScore(content: string, summary: Option<string>, transcript: Option<string>, sig: Signals)
    ensures var a := AnalyzeSpec(content, summary, transcript, sig);
      && 0 <= a.score <= 100
      && a.score == Clamp(BaseScore + SumDeltas(a.reasons))
      && a.level == LevelOf(a.score)
      && 1 <= |a.reasons| <= 9
  {
    AnalysisScoreOf(RunChecks(content, summary, transcript, sig), content, summary, transcript, sig);
  }

  /** The score facts for the checks of one text, with those checks named. */
  lemma AnalysisScoreOf(c: Checks, content: string, summary: Option<string>, transcript: Option<string>, sig: Signals)
    requires c == RunChecks(content, summary, transcript, sig)
    ensures var a := Assemble(c);
      && 0 <= a.score <= 100
      && a.score == Clamp(BaseScore + SumDeltas(a.reasons))
      && a.level == LevelOf(a.score)
      && 1 <= |a.reasons| <= 9
  {
    RunChecksWellFormed(content, summary, transcript, sig);
    AssembleScore(c);
  }

  /**
   * At most one question per check that asks one (question, scope, length, alternatives),
   * so at most four; they come out in descending priority with none lost, which for
   * these four priorities is the reverse of the order they were gathered in.
   */
  lemma AnalysisQuestions(content: string, summary: Option<string>, transcript: Option<string>, sig: Signals)
    ensures var a := AnalyzeSpec(content, summary, transcript, sig);
      var gathered := GatheredQuestions(RunChecks(content, summary, transcript, sig));
      && |a.questions| <= 4
      && SortedByPriority(a.questions)
      && multiset(a.questions) == multiset(gathered)
      && a.questions == Reverse(gathered)
  {
    RunChecksWellFormed(content, summary, transcript, sig);
    AssembleQuestions(RunChecks(content, summary, transcript, sig));
  }

  predicate Below(qs: seq<Question>, p: int) {
    forall k :: 0 <= k < |qs| ==> qs[k].priority < p
  }

  /** Appending the question of a check of priority `p` to a list below `p` keeps it ascending. */
  lemma AscendingStep(qs: seq<Question>, c: Check, p: int)
    requires StrictlyAscending(qs) && Below(qs, p)
    requires c.question.Some? ==> c.question.value.priority == p
    ensures StrictlyAscending(qs + QuestionOf(c)) && Below(qs + QuestionOf(c), p + 1)
    ensures |qs + QuestionOf(c)| <= |qs| + 1
  {
  }

  /** The recommendation follows the level, and asks for clarification only when there are questions. */
  lemma AnalysisRecommendation(content: string, summary: Option<string>, transcript: Option<string>, sig: Signals)
    ensures var a := AnalyzeSpec(content, summary, transcript, sig);
      && (a.recommended == "execute" <==> a.score >= 70)
      && (a.recommended == "execute_with_plan" <==> 40 <= a.score < 70)
      && (a.recommended == "clarify" <==> a.score < 40 && a.questions != [])
      && (a.recommended == "skip_or_clarify" <==> a.score < 40 && a.questions == [])
  {
  }

  /** `analyze_certainty`. */
  method AnalyzeCertainty(content: string, summary: Option<string>, transcript: Option<string>, sig: Signals)
    returns (a: Analysis)
    ensures a == AnalyzeSpec(content, summary, transcript, sig)
  {
    a := Analyze(content, summary, transcript, sig);
  }

  /** `should_execute`: the score reaches the threshold (40 by default). */
  predicate ShouldExecute(content: string, summary: Option<string>, transcript: Option<string>, sig: Signals, threshold: int) {
    AnalyzeSpec(content, summary, transcript, sig).score >= threshold
  }

  const DefaultThreshold: int := 40

  /** With the default threshold a task runs exactly when its level is medium or high. */
  lemma ShouldExecuteDefault(content: string, summary: Option<string>, transcript: Option<string>, sig: Signals)
    ensures ShouldExecute(content, summary, transcript, sig, DefaultThreshold)
            <==> AnalyzeSpec(content, summary, transcript, sig).level != Low
    ensures ShouldExecute(content, summary, transcript, sig, DefaultThreshold)
            <==> AnalyzeSpec(content, summary, transcript, sig).recommended in {"execute", "execute_with_plan"}
  {
  }
}
