/** The survey state machine (lib/screening/survey_labeling.rb): the stored answers are scored
    against a per-hint table of supporting and contradicting options, the score and two red
    flags give an alignment, and the alignment promotes, demotes or reverts a follow-up
    screening. */
module SurveyLabeling {
  import opened Wrappers
  import opened Domain
  import Text
  import Numbers
  import Baseline

  /** The options of one question that count for and against the hint. */
  datatype Rule = Rule(support: seq<string>, against: seq<string>)

  const Yes: seq<string> := ["yes"]
  const No: seq<string> := ["no"]
  const SometimesOften: seq<string> := ["sometimes", "often"]

  /** `RULES`: the per-hint rule tables. A hint without a table of its own (normal, or an
      empty hint) is judged by the unspecified-autonomic table. */
  function RuleFor(hint: Hint, questionId: string): Option<Rule> {
    match hint
    case PotsLike =>
      if questionId == "orthostatic" then Some(Rule(Yes, No))
      else if questionId == "tachy_upright" then Some(Rule(Yes, No))
      else if questionId == "brain_fog" then Some(Rule(["moderate", "severe"], No))
      else if questionId == "heat_trigger" then Some(Rule(SometimesOften, No))
      else if questionId == "hydration" then Some(Rule(Yes, No))
      else None
    case IstLike =>
      if questionId == "fast_resting_hr" then Some(Rule(SometimesOften, No))
      else if questionId == "palpitations_rest" then Some(Rule(SometimesOften, No))
      else if questionId == "standing_relation" then Some(Rule(["mixed", "regardless_posture"], ["mostly_posture"]))
      else if questionId == "stimulants" then Some(Rule(No, ["high"]))
      else if questionId == "med_changes" then Some(Rule(No, Yes))
      else None
    case OhLike =>
      if questionId == "dizzy_standing" then Some(Rule(SometimesOften, No))
      else if questionId == "vision_dim" then Some(Rule(SometimesOften, No))
      else if questionId == "presyncope" then Some(Rule(["near_faint", "faint"], No))
      else if questionId == "recovery_lying" then Some(Rule(Yes, No))
      else if questionId == "bp_drop" then Some(Rule(Yes, No))
      else if questionId == "bp_not_measured" then Some(Rule(["multiple_times"], []))
      else None
    case VvsLike =>
      if questionId == "trigger_pattern" then Some(Rule(SometimesOften, No))
      else if questionId == "warning_signs" then Some(Rule(SometimesOften, No))
      else if questionId == "fainting" then Some(Rule(["once", "multiple"], No))
      else if questionId == "position_relief" then Some(Rule(Yes, No))
      else if questionId == "bp_during_event" then Some(Rule(Yes, No))
      else if questionId == "bp_not_measured" then Some(Rule(Yes, []))
      else None
    case _ =>
      if questionId == "orthostatic" then Some(Rule(Yes, No))
      else if questionId == "presyncope" then Some(Rule(["near_faint", "faint"], No))
      else if questionId == "tachy" then Some(Rule(Yes, No))
      else if questionId == "illness" then Some(Rule(No, Yes))
      else if questionId == "med_changes" then Some(Rule(No, Yes))
      else None
  }

  /** No option both supports and contradicts a hint, so every informative answer casts at most
      one vote. */
  lemma RulesAreConsistent(hint: Hint, questionId: string, answer: string)
    requires RuleFor(hint, questionId).Some?
    ensures !(answer in RuleFor(hint, questionId).value.support && answer in RuleFor(hint, questionId).value.against)
  {
  }

  /** `normalized_hint`: an empty hint is treated as unspecified autonomic. */
  function NormalizedHint(hint: Hint): (h: Hint)
    ensures h != NoHint
    ensures hint != NoHint ==> h == hint
  {
    if hint == NoHint then UnspecifiedAutonomic else hint
  }

  /** An answer map: question id to normalised answer, ids distinct, in first-answered order. */
  type AnswerMap = seq<(string, string)>

  predicate DistinctIds(m: AnswerMap) {
    forall i, j :: 0 <= i < j < |m| ==> m[i].0 != m[j].0
  }

  /** Every stored id and answer is non-blank. */
  predicate Filled(m: AnswerMap) {
    forall i :: 0 <= i < |m| ==> m[i].0 != "" && m[i].1 != ""
  }

  /** `answers[id]` on an answer map. */
  function Lookup(m: AnswerMap, id: string): (r: Option<string>)
    ensures r.Some? <==> exists i :: 0 <= i < |m| && m[i].0 == id
    ensures DistinctIds(m) ==> forall i :: 0 <= i < |m| && m[i].0 == id ==> r == Some(m[i].1)
  {
    if |m| == 0 then None
    else if m[0].0 == id then Some(m[0].1)
    else
      assert forall i :: 0 <= i < |m| - 1 ==> m[1..][i] == m[i + 1];
      Lookup(m[1..], id)
  }

  /** `mapped[id] = answer`: overwrites in place when the id is present, appends otherwise. */
  function Put(m: AnswerMap, id: string, answer: string): (r: AnswerMap)
    requires DistinctIds(m)
    ensures DistinctIds(r)
    ensures Lookup(r, id) == Some(answer)
    ensures forall k :: k != id ==> Lookup(r, k) == Lookup(m, k)
    ensures |r| == |m| || |r| == |m| + 1
    ensures forall i :: 0 <= i < |r| ==> r[i] == (id, answer) || r[i] in m
    ensures Filled(m) && id != "" && answer != "" ==> Filled(r)
  {
    if |m| == 0 then [(id, answer)]
    else if m[0].0 == id then
      assert forall i :: 0 <= i < |m| - 1 ==> m[1..][i] == m[i + 1];
      [(id, answer)] + m[1..]
    else
      assert forall i :: 0 <= i < |m| - 1 ==> m[1..][i] == m[i + 1];
      var rest := Put(m[1..], id, answer);
      assert forall i :: 0 <= i < |rest| ==> rest[i].0 == id || exists j :: 1 <= j < |m| && m[j].0 == rest[i].0 by {
        forall i | 0 <= i < |rest| ensures rest[i].0 == id || exists j :: 1 <= j < |m| && m[j].0 == rest[i].0 {
          if rest[i].0 != id {
            assert Lookup(rest, rest[i].0).Some?;
            assert Lookup(m[1..], rest[i].0).Some?;
            var j :| 0 <= j < |m| - 1 && m[1..][j].0 == rest[i].0;
            assert m[j + 1].0 == rest[i].0;
          }
        }
      }
      [m[0]] + rest
  }

  function AnswerId(a: Answer): string {
    Text.Strip(a.id)
  }

  function AnswerValue(a: Answer): string {
    Text.Lower(Text.Strip(a.answer))
  }

  predicate Usable(a: Answer) {
    AnswerId(a) != "" && AnswerValue(a) != ""
  }

  /** The reference reading of an answer list: the normalised answer of the last usable item
      with the given id. */
  function LastAnswer(items: seq<Answer>, id: string): Option<string> {
    if |items| == 0 then None
    else
      var a := items[|items| - 1];
      if Usable(a) && AnswerId(a) == id then Some(AnswerValue(a)) else LastAnswer(items[..|items| - 1], id)
  }

  /** `answer_map`: ids and answers are stripped, answers lower-cased, blank items skipped; a
      later answer to the same id replaces the earlier one (see `AnswerMapIsLastAnswer`). */
  function AnswerMapOf(items: seq<Answer>): (m: AnswerMap)
    ensures DistinctIds(m)
    ensures |m| <= |items|
    ensures Filled(m)
  {
    if |items| == 0 then []
    else
      var prev := AnswerMapOf(items[..|items| - 1]);
      var a := items[|items| - 1];
      if Usable(a) then Put(prev, AnswerId(a), AnswerValue(a)) else prev
  }

  /** Reading an id from the answer map gives the normalised answer of the last usable item
      with that id, and nothing when no usable item has it. */
  lemma {:induction false} AnswerMapIsLastAnswer(items: seq<Answer>, id: string)
    ensures Lookup(AnswerMapOf(items), id) == LastAnswer(items, id)
  {
    if |items| > 0 {
      AnswerMapIsLastAnswer(items[..|items| - 1], id);
    }
  }

  /** The votes of a list of answers under a hint's rules. */
  datatype Tally = Tally(informative: nat, support: nat, against: nat)

  /** How one answer counts under a hint's rules: not at all when its question has no rule,
      for the hint when the answer is a supporting one (checked first), against it when it is
      a contrary one, and as informative but neutral otherwise. */
  datatype Vote = NoRule | VoteFor | VoteAgainst | Neutral

  function VoteOf(hint: Hint, entry: (string, string)): (v: Vote)
    ensures v == NoRule <==> RuleFor(hint, entry.0).None?
  {
    match RuleFor(hint, entry.0)
    case None => NoRule
    case Some(rule) =>
      if entry.1 in rule.support then VoteFor
      else if entry.1 in rule.against then VoteAgainst
      else Neutral
  }

  /** The vote of every answer, in order. */
  function Votes(hint: Hint, answers: AnswerMap): (v: seq<Vote>)
    ensures |v| == |answers| && forall i :: 0 <= i < |answers| ==> v[i] == VoteOf(hint, answers[i])
  {
    seq(|answers|, i requires 0 <= i < |answers| => VoteOf(hint, answers[i]))
  }

  /** The votes of a list with one more answer are the old votes and the new answer's vote. */
  lemma VotesSnoc(hint: Hint, answers: AnswerMap)
    requires |answers| > 0
    ensures Votes(hint, answers) == Votes(hint, answers[..|answers| - 1]) + [VoteOf(hint, answers[|answers| - 1])]
  {
    var init := answers[..|answers| - 1];
    var a, b := Votes(hint, answers), Votes(hint, init) + [VoteOf(hint, answers[|answers| - 1])];
    forall i | 0 <= i < |a|
      ensures a[i] == b[i]
    {
      if i < |init| {
        assert init[i] == answers[i];
      }
    }
  }

  /** The tally of `assess`: an answer is informative exactly when its question has a rule,
      and the support and against counts are the numbers of supporting and contrary votes. */
  function TallyOf(hint: Hint, answers: AnswerMap): (t: Tally)
    ensures t.support + t.against <= t.informative <= |answers|
    ensures t.support == multiset(Votes(hint, answers))[VoteFor]
    ensures t.against == multiset(Votes(hint, answers))[VoteAgainst]
    ensures t.informative == |answers| - multiset(Votes(hint, answers))[NoRule]
    ensures (forall i :: 0 <= i < |answers| ==> RuleFor(hint, answers[i].0).None?) ==> t == Tally(0, 0, 0)
  {
    if |answers| == 0 then Tally(0, 0, 0)
    else
      var init := answers[..|answers| - 1];
      var t := TallyOf(hint, init);
      var v := VoteOf(hint, answers[|answers| - 1]);
      VotesSnoc(hint, answers);
      assert multiset(Votes(hint, init))[NoRule] <= |init| by {
        assert |multiset(Votes(hint, init))| == |init|;
      }
      assert (forall i :: 0 <= i < |answers| ==> RuleFor(hint, answers[i].0).None?) ==>
        (forall i :: 0 <= i < |init| ==> RuleFor(hint, init[i].0).None?) && v == NoRule by {
        assert forall i :: 0 <= i < |init| ==> init[i] == answers[i];
      }
      match v
      case NoRule => t
      case VoteFor => Tally(t.informative + 1, t.support + 1, t.against)
      case VoteAgainst => Tally(t.informative + 1, t.support, t.against + 1)
      case Neutral => Tally(t.informative + 1, t.support, t.against)
  }

  /** `support_score`: net votes per informative answer, 0 without informative answers. */
  function SupportScore(t: Tally): (s: real)
    requires t.support + t.against <= t.informative
    ensures -1.0 <= s <= 1.0
    ensures t.informative == 0 ==> s == 0.0
    ensures t.against == 0 && t.support > 0 ==> s > 0.0
    ensures t.support == 0 && t.against > 0 ==> s < 0.0
    ensures t.support == 0 ==> s <= 0.0
    ensures t.against == 0 ==> s >= 0.0
  {
    if t.informative == 0 then 0.0
    else
      var n := t.informative as real;
      var net := t.support as real - t.against as real;
      Numbers.DivideBounds(net, n, -1.0, 1.0);
      net / n
  }

  /** `SEVERE_FLAGS`: fainting on the presyncope question, or any loss of consciousness. */
  function SevereRedFlag(answers: AnswerMap): (b: bool)
    ensures b <==> (Lookup(answers, "presyncope") == Some("faint")
                    || Lookup(answers, "fainting") == Some("once")
                    || Lookup(answers, "fainting") == Some("multiple"))
  {
    var p := Lookup(answers, "presyncope");
    var f := Lookup(answers, "fainting");
    (p.Some? && p.value in ["faint"]) || (f.Some? && f.value in ["once", "multiple"])
  }

  const SupportThreshold: real := 0.35
  const AgainstThreshold: real := -0.25
  const MinInformative: nat := 2

  /** The alignment rule: fewer than two informative answers is inconclusive; a red flag or a
      score of at least 0.35 supports; a score of at most -0.25 does not support; anything in
      between is mixed. */
  function AlignmentFor(informative: nat, severe: bool, score: real): (a: Alignment)
    ensures a == Inconclusive <==> informative < MinInformative
    ensures a == DoesNotSupport ==> !severe && score <= AgainstThreshold
    ensures a == Mixed ==> !severe && AgainstThreshold < score < SupportThreshold
    ensures a == Supports ==> severe || score >= SupportThreshold
    ensures informative >= MinInformative && severe ==> a == Supports
  {
    if informative < MinInformative then Inconclusive
    else if severe || score >= SupportThreshold then Supports
    else if score <= AgainstThreshold then DoesNotSupport
    else Mixed
  }

  /** A higher score never moves the alignment away from support. */
  lemma AlignmentMonotone(informative: nat, severe: bool, s: real, s': real)
    requires informative >= MinInformative && s <= s'
    ensures AlignmentFor(informative, severe, s) == Supports ==> AlignmentFor(informative, severe, s') == Supports
    ensures AlignmentFor(informative, severe, s') == DoesNotSupport ==> AlignmentFor(informative, severe, s) == DoesNotSupport
  {
  }

  /** `assess`: the vote counts, the rounded score, the red flag and the alignment, in the
      context of the screening's status and hint. */
  function Assess(status: Status, hint: Hint, answers: AnswerMap): (a: SurveyAssessment)
    ensures a.answeredCount == |answers|
    ensures a.supportVotes + a.againstVotes <= a.informative <= |answers|
    ensures -1.0 <= a.supportScore <= 1.0
    ensures a.severeRedFlag == SevereRedFlag(answers)
    ensures a.alignment == Inconclusive <==> a.informative < MinInformative
    ensures a.alignment == DoesNotSupport ==> !a.severeRedFlag && a.againstVotes > 0
    ensures a.alignment == Supports ==> a.severeRedFlag || a.supportVotes > 0
    ensures a.statusContext == status && a.hintContext == hint
    ensures a.summary.SurveySummary? && a.summary.alignment == a.alignment
    ensures var t := TallyOf(hint, answers);
      && a.informative == t.informative && a.supportVotes == t.support && a.againstVotes == t.against
      && a.alignment == AlignmentFor(t.informative, SevereRedFlag(answers), SupportScore(t))
      && a.supportScore == Numbers.Round3(SupportScore(t))
  {
    var t := TallyOf(hint, answers);
    var score := SupportScore(t);
    var severe := SevereRedFlag(answers);
    var alignment := AlignmentFor(t.informative, severe, score);
    assert alignment == Supports ==> severe || t.support > 0;
    assert alignment == DoesNotSupport ==> t.against > 0;
    SurveyAssessment(status, hint, |answers|, t.informative, t.support, t.against, Numbers.Round3(score),
                     alignment, severe, SurveySummary(hint, alignment, score, t.informative))
  }

  /** `promote_confidence`: one grade up, capped at high; an empty confidence becomes medium. */
  function Promote(c: Confidence): (r: Confidence)
    ensures r != Low && r != NoConfidence
    ensures ConfidenceRank(r) >= ConfidenceRank(c)
    ensures c != High ==> ConfidenceRank(r) >= 2 && ConfidenceRank(r) > ConfidenceRank(c)
  {
    match c
    case Low => Medium
    case Medium => High
    case High => High
    case NoConfidence => Medium
  }

  /** `demote_confidence`: one grade down, floored at low; anything unrecognised becomes low. */
  function Demote(c: Confidence): (r: Confidence)
    ensures r == Medium || r == Low
    ensures ConfidenceRank(r) <= ConfidenceRank(c) || c == NoConfidence
    ensures c == High ==> r == Medium
    ensures c != High ==> r == Low
    ensures c != NoConfidence && c != Low ==> ConfidenceRank(r) == ConfidenceRank(c) - 1
  {
    match c
    case High => Medium
    case _ => Low
  }

  /** Promotion and demotion are inverse on the middle grade and on high. */
  lemma PromoteDemote(c: Confidence)
    requires c == Medium || c == High
    ensures Promote(Demote(c)) == c
  {
  }

  /** `append_note`: the message is added and the notes de-duplicated. */
  function AppendNote(notes: seq<Note>, n: Note): (r: seq<Note>)
    ensures Text.NoDuplicates(r)
    ensures n in r
    ensures forall i :: 0 <= i < |notes| ==> notes[i] in r
    ensures forall i :: 0 <= i < |r| ==> r[i] in notes || r[i] == n
  {
    Text.Dedup(notes + [n])
  }

  /** The screening fields after the follow-up branch of `apply!`, before the questionnaire is
      rebuilt. */
  function Relabel(s: Screening, a: SurveyAssessment, hint: Hint): (r: Screening)
    requires s.status == NeedsFollowup
    ensures a.alignment == Supports ==> r.status == NeedsFollowup && r.confidence == Promote(s.confidence)
    ensures a.alignment == DoesNotSupport && !a.severeRedFlag && ConfidenceRank(s.confidence) <= 2 ==>
      r.status == Normal && r.hint == NormalHint && r.confidence == Medium && r.reason == SurveyRevertedToNormal
      && r.questionnaire == Baseline.NormalQuestionnaire() && SurveyDowngradedStatus in r.dataNotes
    ensures a.alignment == DoesNotSupport && (a.severeRedFlag || ConfidenceRank(s.confidence) > 2) ==>
      r.status == NeedsFollowup && r.confidence == Demote(s.confidence)
    ensures a.alignment == Mixed ==>
      r.status == NeedsFollowup && r.confidence == (if ConfidenceRank(s.confidence) >= 2 then Demote(s.confidence) else s.confidence)
    ensures a.alignment == Inconclusive ==> r.status == NeedsFollowup && r.confidence == s.confidence
    ensures r.status == NeedsFollowup ==> r.hint == s.hint
    ensures r.status == Normal <==> a.alignment == DoesNotSupport && !a.severeRedFlag && ConfidenceRank(s.confidence) <= 2
    ensures r.signals == s.signals && r.bpDataPresent == s.bpDataPresent && r.stats == s.stats
    ensures r.clusteringModel == s.clusteringModel && r.surveyAssessment == s.surveyAssessment
    ensures r.safetyNotes == s.safetyNotes
    ensures Text.NoDuplicates(s.dataNotes) ==> Text.NoDuplicates(r.dataNotes)
    ensures forall n :: n in s.dataNotes ==> n in r.dataNotes
  {
    match a.alignment
    case Supports => s.(confidence := Promote(s.confidence), reason := SurveyAligns(hint))
    case DoesNotSupport =>
      if !a.severeRedFlag && ConfidenceRank(s.confidence) <= 2 then
        s.(status := Normal, hint := NormalHint, confidence := Medium, reason := SurveyRevertedToNormal,
           questionnaire := Baseline.NormalQuestionnaire(), dataNotes := AppendNote(s.dataNotes, SurveyDowngradedStatus))
      else s.(confidence := Demote(s.confidence), reason := SurveyDidNotMatch)
    case Mixed =>
      s.(confidence := if ConfidenceRank(s.confidence) >= 2 then Demote(s.confidence) else s.confidence,
         reason := SurveyMixed(hint))
    case Inconclusive => s.(reason := SurveyTooFewAnswers)
  }

  /** The follow-up branch of `apply!`: the relabelled screening, which, if it is still a
      follow-up, gets the questionnaire of its normalised hint. */
  function FollowUp(s: Screening, a: SurveyAssessment, hint: Hint): (r: Screening)
    requires s.status == NeedsFollowup
    ensures r.status in {Normal, NeedsFollowup}
    ensures a.alignment == Supports ==> r.status == NeedsFollowup && r.confidence == Promote(s.confidence)
    ensures r.status == Normal ==>
      a.alignment == DoesNotSupport && !a.severeRedFlag && r.confidence == Medium && r.hint == NormalHint
    ensures r.status == NeedsFollowup ==>
      r.questionnaire == Baseline.QuestionnaireFor(NeedsFollowup, NormalizedHint(s.hint), s.bpDataPresent)
    ensures r.signals == s.signals && r.bpDataPresent == s.bpDataPresent && r.stats == s.stats
    ensures r.clusteringModel == s.clusteringModel && r.surveyAssessment == s.surveyAssessment
    ensures Text.NoDuplicates(s.dataNotes) ==> Text.NoDuplicates(r.dataNotes)
    ensures forall n :: n in s.dataNotes ==> n in r.dataNotes
  {
    var relabelled := Relabel(s, a, hint);
    if relabelled.status == NeedsFollowup then
      relabelled.(questionnaire := Baseline.QuestionnaireFor(NeedsFollowup, NormalizedHint(relabelled.hint), relabelled.bpDataPresent))
    else relabelled
  }

  /** `apply!`: the assessment is stored and its summary noted; a screening that is not a
      follow-up keeps everything else; a follow-up is relabelled by the alignment and, if it
      is still a follow-up, gets the questionnaire of its (normalised) hint. */
  function Apply(s: Screening, answers: seq<Answer>): (r: (Screening, SurveyAssessment))
    ensures r.0.surveyAssessment == Some(r.1)
    ensures r.1 == Assess(s.status, NormalizedHint(s.hint), AnswerMapOf(answers))
    ensures r.1.summary in r.0.dataNotes && Text.NoDuplicates(r.0.dataNotes)
    ensures forall i :: 0 <= i < |s.dataNotes| ==> s.dataNotes[i] in r.0.dataNotes
    ensures s.status != NeedsFollowup ==>
      r.0 == s.(surveyAssessment := Some(r.1), dataNotes := AppendNote(s.dataNotes, r.1.summary))
    ensures s.status == NeedsFollowup ==> r.0 == FollowUp(
      s.(surveyAssessment := Some(r.1), dataNotes := AppendNote(s.dataNotes, r.1.summary)), r.1, NormalizedHint(s.hint))
    ensures r.0.signals == s.signals && r.0.bpDataPresent == s.bpDataPresent && r.0.stats == s.stats
    ensures r.0.clusteringModel == s.clusteringModel
  {
    var hint := NormalizedHint(s.hint);
    var a := Assess(s.status, hint, AnswerMapOf(answers));
    var noted := s.(surveyAssessment := Some(a), dataNotes := AppendNote(s.dataNotes, a.summary));
    if s.status != NeedsFollowup then (noted, a) else (FollowUp(noted, a, hint), a)
  }

  /** `apply!` is not idempotent: a second submission of the same supporting answers promotes
      the confidence again, so a low-confidence follow-up reaches high after two submissions. */
  lemma RepeatedSupportPromotesTwice(s: Screening, answers: seq<Answer>)
    requires s.status == NeedsFollowup && s.confidence == Low
    requires Assess(NeedsFollowup, NormalizedHint(s.hint), AnswerMapOf(answers)).alignment == Supports
    ensures Apply(s, answers).0.confidence == Medium
    ensures Apply(Apply(s, answers).0, answers).0.confidence == High
  {
    var once := Apply(s, answers).0;
    assert once.status == NeedsFollowup && once.hint == s.hint;
  }
}
