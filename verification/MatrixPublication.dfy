/** When a question is complete: what its fields must hold, said over their characters. */
module MatrixPublication {
  import opened Wrappers
  import opened Matrix

  /** str.strip leaves nothing exactly of the texts that are all whitespace. */
  lemma {:induction false} StripBlank(s: string)
    ensures Strip(s) == "" <==> forall i :: 0 <= i < |s| ==> IsSpace(s[i])
    decreases |s|
  {
    hide IsSpace;
    if s != "" {
      if IsSpace(s[0]) {
        StripBlank(s[1..]);
        assert s == [s[0]] + s[1..];
      } else {
        assert !IsSpace(s[0]);
        if IsSpace(s[|s| - 1]) { StripBlank(s[..|s| - 1]); assert s[..|s| - 1][0] == s[0]; }
      }
    }
  }

  /** str.strip takes whitespace off both ends and nothing else. */
  lemma {:induction false} StripTrims(s: string) returns (left: nat, right: nat)
    ensures left <= right <= |s| && Strip(s) == s[left..right]
    ensures forall i :: 0 <= i < left || right <= i < |s| ==> IsSpace(s[i])
    ensures left < right ==> !IsSpace(s[left]) && !IsSpace(s[right - 1])
    decreases |s|
  {
    hide IsSpace;
    if s == "" {
      left, right := 0, 0;
    } else if IsSpace(s[0]) {
      var l, r := StripTrims(s[1..]);
      left, right := l + 1, r + 1;
      assert s == [s[0]] + s[1..];
      assert s[left..right] == s[1..][l..r];
    } else if IsSpace(s[|s| - 1]) {
      left, right := StripTrims(s[..|s| - 1]);
    } else {
      left, right := 0, |s|;
    }
  }

  predicate HasText(s: string) {
    exists i :: 0 <= i < |s| && !IsSpace(s[i])
  }

  /** The question has its grade and seven texts that are not blank. */
  predicate Complete(f: Form) {
    && f.grade.Some? && HasText(f.slug)
    && HasText(f.questionRu) && HasText(f.questionEn)
    && HasText(f.answerRu) && HasText(f.answerEn)
    && HasText(f.explanationRu) && HasText(f.explanationEn)
  }

  predicate Lacks(f: Form, field: Field) {
    match field
    case Slug => !HasText(f.slug)
    case GradeField => f.grade.None?
    case QuestionRu => !HasText(f.questionRu)
    case QuestionEn => !HasText(f.questionEn)
    case AnswerRu => !HasText(f.answerRu)
    case AnswerEn => !HasText(f.answerEn)
    case ExplanationRu => !HasText(f.explanationRu)
    case ExplanationEn => !HasText(f.explanationEn)
  }

  lemma BlankIsStripped(s: string)
    ensures Strip(s) == "" <==> !HasText(s)
  {
    StripBlank(s);
  }

  lemma MissingField(f: Form, field: Field)
    ensures field in MissingFields(f) <==> Lacks(f, field)
  {
    hide Strip;
    hide HasText;
    match field
    case Slug => BlankIsStripped(f.slug);
    case GradeField =>
    case QuestionRu => BlankIsStripped(f.questionRu);
    case QuestionEn => BlankIsStripped(f.questionEn);
    case AnswerRu => BlankIsStripped(f.answerRu);
    case AnswerEn => BlankIsStripped(f.answerEn);
    case ExplanationRu => BlankIsStripped(f.explanationRu);
    case ExplanationEn => BlankIsStripped(f.explanationEn);
  }

  lemma CompleteLacksNothing(f: Form)
    ensures Complete(f) <==> forall field :: !Lacks(f, field)
  {
    hide HasText;
    if !Complete(f) {
      assert Lacks(f, Slug) || Lacks(f, GradeField) || Lacks(f, QuestionRu) || Lacks(f, QuestionEn)
          || Lacks(f, AnswerRu) || Lacks(f, AnswerEn) || Lacks(f, ExplanationRu) || Lacks(f, ExplanationEn);
    }
  }

  /** Reported as missing are exactly the fields that are blank, and a form with none is complete. */
  lemma MissingExactly(f: Form)
    ensures forall field :: field in MissingFields(f) <==> Lacks(f, field)
    ensures MissingFields(f) == {} <==> Complete(f)
  {
    hide MissingFields;
    hide Lacks;
    hide Complete;
    forall field ensures field in MissingFields(f) <==> Lacks(f, field) { MissingField(f, field); }
    CompleteLacksNothing(f);
    if MissingFields(f) != {} {
      var field :| field in MissingFields(f);
    }
  }
}
