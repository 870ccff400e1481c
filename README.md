# Colorectal-cancer screening risk classifier

A Dafny model of the decision logic of the screening form in `app.py`. The form
computes the patient's age from the birth date. If the age is valid, it picks one
screening recommendation from a prioritised if/elif chain over the checkbox answers:

- hereditary syndrome, IBD, hamartomatous syndrome or FAP;
- a relative with colorectal cancer, diagnosed before 60 or not;
- a polyp in the last 10 years, advanced or serrated or neither;
- symptoms;
- otherwise the age band.

It adds a note when the BMI is at least 25.

- `Dates` (`dates.dfy`): dates compared as Python compares them, `calculate_age` as `Age`, and a reference definition that counts the birthdays reached.
- `Screening` (`screening.dfy`): the answers, the gating of follow-up questions, the ten categories, the chain as `Classify`, each category's own condition (`Triggers`), its priority, and the ordered rule table with a one-pass scan (`FirstTriggered`).
- `Assessment` (`assessment.dfy`): the age guard, the BMI note, and the end-to-end evaluation from dates and raw answers.

Symptoms are not checked first. The code tests them fourth, after the genetic/IBD, family and polyp questions (app.py:139). So a patient with symptoms and any of those flags gets the flag's category, not the symptoms category. `Screening.SymptomsNeverOverrideRiskFlags` states this for every age and every set of answers.

## Model

| member | source | states |
|---|---|---|
| Dates.Age | app.py:5-7 | the age is the number of whole years lived: the birthday of that year count has been reached and the next one has not |
| Dates.AnniversaryReachedIff | app.py:7 | the n-th birthday has been reached exactly when the age is at least n |
| Dates.AnniversariesReachedClamp | app.py:7 | counting the birthdays 1..n that have been reached gives the age clamped to [0, n] |
| Dates.AgeCountsBirthdays | app.py:5-7 | for a birth date on or before today, the age equals the count of birthdays reached since birth |
| Dates.AgeNonNegative | app.py:7 | a birth date on or before today gives age at least 0 |
| Dates.FutureBirthNegativeAge | app.py:7 | a birth date after today gives a negative age |
| Dates.AgeOnBirthDate | app.py:7 | someone born today is 0 |
| Dates.AgeOnBirthday | app.py:7 | on the n-th birthday the age is n |
| Dates.AgeMonotone | app.py:7 | the age never decreases as today moves forward |
| Screening.Gate | app.py:53-62 | captured answers are well formed, keep every top-level answer, and keep each follow-up whenever its parent is ticked |
| Screening.GateFixesWellFormed | app.py:53-62 | well-formed answers pass the capture unchanged |
| Screening.Classify | app.py:80-162 | the chosen category's own condition holds |
| Screening.PriorityInjective | app.py:80-162 | no two categories share a priority, so a tie always resolves to one category |
| Screening.Exhaustive | app.py:143-162 | every age and every combination of answers meets some category's condition |
| Screening.ClassifyIsHighestPriority | app.py:80-162 | the chain returns the highest-priority category whose condition holds |
| Screening.ClassifyUnique | app.py:80-162 | a category whose condition holds and that no higher-priority condition overrides is the one returned, so exactly one category comes out |
| Screening.GeneticDominates | app.py:80-88 | any of hereditary, IBD, hamartomatous or FAP gives the genetic/IBD category whatever the other answers and the age |
| Screening.FamilyBranch | app.py:91-109 | without a genetic flag, a family history gives the before-60 or the 60-or-later category by the follow-up answer |
| Screening.PolypBranch | app.py:112-136 | without genetic or family flags, a recent polyp gives advanced adenoma before serrated before simple history |
| Screening.SymptomaticIff | app.py:139-140 | the symptoms category comes out exactly when symptoms are reported and no genetic, family or polyp flag is set |
| Screening.SymptomsNeverOverrideRiskFlags | app.py:80-140 | with a genetic, family or polyp flag set, symptoms never give the symptoms category and clearing them leaves the category unchanged |
| Screening.AgeDecides | app.py:143-162 | with no flag and no symptom: under 50 no screening, 50 to 75 average risk, over 75 individualised evaluation |
| Screening.AgeBandsCover | app.py:143-162 | every age falls in some age band |
| Screening.AgeBandsDisjoint | app.py:143-162 | no age falls in two age bands |
| Screening.AgeBandIff | app.py:139-162 | the result is an age band exactly when no flag and no symptom is set |
| Screening.ClassifyIgnoresUngatedFollowUps | app.py:53-62 | follow-up answers are read only under their parent, so gating never changes the category |
| Screening.Priority | app.py:80-162 | the order in which the chain tests the categories; the rule table lists every category at the index of its priority |
| Screening.RuleTableRowPriority | app.py:80-162 | row j of the rule table has priority j |
| Screening.FirstTriggered | app.py:80-162 | a category found by scanning the rule table has its condition holding |
| Screening.FirstTriggeredFindsFirst | app.py:80-162 | the scan returns the first row whose condition holds |
| Screening.ClassifyIsRuleTableScan | app.py:80-162 | the if/elif chain and one pass over the ordered rule table agree on every input |
| Assessment.Evaluate | app.py:75-166 | the invalid-birth-date outcome comes out exactly for ages outside 1..120; otherwise the category's condition holds and the BMI note is present exactly when the BMI is at least 25 |
| Assessment.EvaluateAgeGuard | app.py:75-162 | every age the guard lets through gets the highest-priority category whose condition holds |
| Assessment.BmiNoteIff | app.py:165-166 | the BMI note is present exactly when the BMI is at least 25 |
| Assessment.BmiIndependence | app.py:75-166 | the BMI never changes the category and the answers never change the BMI note |
| Assessment.Assess | app.py:53-77 | from the birth date, today's date and the raw answers: the outcome is a recommendation exactly when the age from `calculate_age` is in 1..120, and the category's condition then holds of the answers as ticked |
| Assessment.AssessAcceptsIff | app.py:67-77 | with the age from `calculate_age` (app.py:5-7) and the guard, a birth date is accepted exactly when the first birthday has been reached and the 121st has not |
| Assessment.FutureBirthRejected | app.py:67-77 | a birth date after today gives a negative age (app.py:7), which the guard rejects |
| Assessment.BirthTodayRejected | app.py:75-77 | a birth date of today is rejected, since the guard refuses age 0 |
| Assessment.AssessIgnoresGating | app.py:53-68 | the end-to-end outcome from gated answers equals the one from the raw answers |

## Left out

- Page rendering (titles, markdown, warning/info/success boxes, `st.stop()`): the model returns an `Outcome` instead of drawing it. The protocol texts of each category are not modelled, since they carry no behaviour.
- `datetime.today()`: a clock read. Today's date is a parameter.
- The date widget's bounds (1900-01-01 to today) are not enforced. The upper bound is not needed: a birth date after today gives a negative age, which the age guard already rejects (`Assessment.FutureBirthRejected`). The lower bound is not modelled: `Assess` accepts a birth date before 1900 when today's date makes the age at most 120, for example born 1850-01-01 and assessed 1950-01-01. With today's date in 2021 or later, such a birth date gives an age of at least 121 and the guard rejects it anyway.
- Calendar validity of dates: `Age` takes any (year, month, day) triple. No property depends on the date existing.
- `calculate_bmi` (app.py:9-11): floating-point division and `round(..., 1)` are not modelled. The BMI is a given `real`, and only the `>= 25` test is modelled. The source raises no error of its own for a non-positive height or weight. A height of 0 fails with Python's division error, and negative values are accepted. Neither case is modelled.
- Parsing of the height and weight text with its `ValueError` messages (app.py:33-44), and the "all inputs provided" condition (app.py:67): widget and parse state, so the model starts from parsed inputs.
