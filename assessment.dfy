/** The evaluation step of the screening form (app.py:67-166): the age guard,
    the classifier and the BMI note, put together from the birth date, today's
    date, the BMI and the checkbox answers. */
module Assessment {
  import opened Dates
  import opened Screening

  /** Oldest age the form accepts (app.py:75). */
  const MaxAge: int := 120

  /** BMI from which the form adds its note (app.py:165). */
  const OverweightBmi: real := 25.0

  /** What the result section shows: an invalid-birth-date error and nothing else
      (`st.stop()`), or one category plus whether the BMI note follows it. */
  datatype Outcome = InvalidBirthDate | Recommendation(category: Category, bmiNote: bool)

  /** The age guard (app.py:75-77), then the classifier (app.py:80-162), then the
      BMI note (app.py:165-166). */
  function Evaluate(age: int, bmi: real, a: Answers): (r: Outcome)
    ensures r == InvalidBirthDate <==> age < 1 || age > 120
    ensures r.Recommendation? ==> Triggers(r.category, age, a)
    ensures r.Recommendation? ==> (r.bmiNote <==> bmi >= 25.0)
  {
    if age <= 0 || age > MaxAge then InvalidBirthDate
    else Recommendation(Classify(age, a), bmi >= OverweightBmi)
  }

  /** Every age the guard lets through gets the highest-priority category whose
      condition holds. */
  lemma EvaluateAgeGuard(age: int, bmi: real, a: Answers)
    ensures 1 <= age <= 120 ==>
              && Evaluate(age, bmi, a).Recommendation?
              && Triggers(Evaluate(age, bmi, a).category, age, a)
              && forall d :: Triggers(d, age, a) ==> Priority(Evaluate(age, bmi, a).category) <= Priority(d)
  {
    ClassifyIsHighestPriority(age, a);
  }

  /** The BMI note is shown exactly when the BMI is at least 25. */
  lemma BmiNoteIff(age: int, bmi: real, a: Answers)
    requires Evaluate(age, bmi, a).Recommendation?
    ensures Evaluate(age, bmi, a).bmiNote <==> bmi >= 25.0
  {
  }

  /** The BMI never changes the outcome's category, and the answers never change
      the BMI note. */
  lemma BmiIndependence(age: int, bmi1: real, bmi2: real, a: Answers, b: Answers)
    ensures Evaluate(age, bmi1, a).Recommendation? <==> Evaluate(age, bmi2, b).Recommendation?
    ensures Evaluate(age, bmi1, a).Recommendation? ==>
              && Evaluate(age, bmi1, a).category == Evaluate(age, bmi2, a).category
              && Evaluate(age, bmi1, a).bmiNote == Evaluate(age, bmi1, b).bmiNote
  {
  }

  /** The whole evaluation from the birth date and today's date, with the
      follow-up questions gated as the form captures them (app.py:53-62, 67-68). */
  function Assess(dob: Date, today: Date, bmi: real, raw: Answers): (r: Outcome)
    ensures r.Recommendation? <==> 1 <= Age(dob, today) <= 120
    ensures r.Recommendation? ==> Triggers(r.category, Age(dob, today), raw)
  {
    Evaluate(Age(dob, today), bmi, Gate(raw))
  }

  /** A birth date is accepted exactly when the first birthday has been reached
      and the 121st has not. */
  lemma AssessAcceptsIff(dob: Date, today: Date, bmi: real, raw: Answers)
    ensures Assess(dob, today, bmi, raw).Recommendation?
            <==> OnOrBefore(Anniversary(dob, 1), today) && Before(today, Anniversary(dob, MaxAge + 1))
  {
    AnniversaryReachedIff(dob, today, 1);
    AnniversaryReachedIff(dob, today, MaxAge + 1);
  }

  /** A birth date after today is rejected. */
  lemma FutureBirthRejected(dob: Date, today: Date, bmi: real, raw: Answers)
    requires Before(today, dob)
    ensures Assess(dob, today, bmi, raw) == InvalidBirthDate
  {
    FutureBirthNegativeAge(dob, today);
  }

  /** A birth date of today is rejected too: the guard refuses age 0. */
  lemma BirthTodayRejected(today: Date, bmi: real, raw: Answers)
    ensures Assess(today, today, bmi, raw) == InvalidBirthDate
  {
    AgeOnBirthDate(today);
  }

  /** Gating the follow-up answers changes nothing: the outcome is the one the
      ungated answers would give. */
  lemma AssessIgnoresGating(dob: Date, today: Date, bmi: real, raw: Answers)
    ensures Assess(dob, today, bmi, raw) == Evaluate(Age(dob, today), bmi, raw)
  {
    ClassifyIgnoresUngatedFollowUps(Age(dob, today), raw);
  }
}
