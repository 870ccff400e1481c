/** The risk classifier of the colorectal-cancer screening form (app.py:47-162):
    the patient's yes/no answers, the gating of the follow-up questions, the ten
    recommendation categories and the prioritised if/elif chain that picks one. */
module Screening {

  /** The form's checkbox answers, in the source's order (app.py:47-64). */
  datatype Answers = Answers(
    ibd: bool,              // chronic bowel inflammation (Crohn's disease, ulcerative colitis)
    hereditary: bool,       // hereditary syndrome such as Lynch
    hamartomatous: bool,    // Peutz-Jeghers, Cowden
    fap: bool,              // familial adenomatous polyposis
    familyCrc: bool,        // a close relative had colorectal cancer
    familyBefore60: bool,   // ... diagnosed before 60 (asked only under familyCrc)
    polypLast10Years: bool, // a polyp found in the last 10 years
    advancedPolyp: bool,    // ... large or high-risk (asked only under polypLast10Years)
    serratedPolyp: bool,    // ... of serrated type (asked only under polypLast10Years)
    symptoms: bool          // blood in stool, change in bowel habit, unexplained weight loss
  )

  /** Follow-up answers are false unless their parent question was answered yes. */
  predicate WellFormed(a: Answers) {
    && (a.familyBefore60 ==> a.familyCrc)
    && (a.advancedPolyp ==> a.polypLast10Years)
    && (a.serratedPolyp ==> a.polypLast10Years)
  }

  /** The form's capture of the follow-up questions (app.py:53-62): a follow-up
      keeps the box's value when its parent is ticked and is False otherwise. */
  function Gate(raw: Answers): (a: Answers)
    ensures WellFormed(a)
    ensures a.ibd == raw.ibd && a.hereditary == raw.hereditary
    ensures a.hamartomatous == raw.hamartomatous && a.fap == raw.fap
    ensures a.familyCrc == raw.familyCrc && a.polypLast10Years == raw.polypLast10Years
    ensures a.symptoms == raw.symptoms
    ensures a.familyCrc ==> a.familyBefore60 == raw.familyBefore60
    ensures a.polypLast10Years ==> a.advancedPolyp == raw.advancedPolyp
    ensures a.polypLast10Years ==> a.serratedPolyp == raw.serratedPolyp
  {
    raw.(familyBefore60 := raw.familyCrc && raw.familyBefore60,
         advancedPolyp := raw.polypLast10Years && raw.advancedPolyp,
         serratedPolyp := raw.polypLast10Years && raw.serratedPolyp)
  }

  /** Answers that are already well formed pass through the capture unchanged. */
  lemma GateFixesWellFormed(raw: Answers)
    requires WellFormed(raw)
    ensures Gate(raw) == raw
  {
  }

  /** Hereditary syndrome, IBD, hamartomatous syndrome or FAP (app.py:80). */
  predicate GeneticOrIbdFlag(a: Answers) {
    a.hereditary || a.ibd || a.hamartomatous || a.fap
  }

  /** The ten outcomes of the chain, in the order the chain tests them. */
  datatype Category =
    | GeneticOrIbd        // high/increased risk, genetic or IBD (app.py:80-88)
    | FamilyBefore60      // increased risk, relative diagnosed before 60 (app.py:92-100)
    | FamilyAt60OrLater   // increased risk, relative diagnosed at 60 or later (app.py:101-109)
    | AdvancedAdenoma     // high risk, advanced adenomas (app.py:113-120)
    | SerratedPolyp       // high risk, serrated polyps (app.py:121-128)
    | PolypHistory        // intermediate risk, polyp history (app.py:129-136)
    | Symptomatic         // symptoms: immediate medical evaluation (app.py:139-140)
    | BelowScreeningAge   // no screening under 50 without risk factors (app.py:143-144)
    | AverageRisk         // average risk, 50 to 75 (app.py:147-158)
    | AboveScreeningAge   // no programmatic screening over 75 (app.py:161-162)

  /** The if/elif chain of app.py:80-162. */
  function Classify(age: int, a: Answers): (c: Category)
    ensures Triggers(c, age, a)
  {
    if GeneticOrIbdFlag(a) then GeneticOrIbd
    else if a.familyCrc then
      (if a.familyBefore60 then FamilyBefore60 else FamilyAt60OrLater)
    else if a.polypLast10Years then
      (if a.advancedPolyp then AdvancedAdenoma
       else if a.serratedPolyp then SerratedPolyp
       else PolypHistory)
    else if a.symptoms then Symptomatic
    else if age < 50 then BelowScreeningAge
    else if age <= 75 then AverageRisk
    else AboveScreeningAge
  }

  /** Each category's own condition, read off the rule table independently of
      the order in which the chain tests them. */
  predicate Triggers(c: Category, age: int, a: Answers) {
    match c
    case GeneticOrIbd => GeneticOrIbdFlag(a)
    case FamilyBefore60 => a.familyCrc && a.familyBefore60
    case FamilyAt60OrLater => a.familyCrc && !a.familyBefore60
    case AdvancedAdenoma => a.polypLast10Years && a.advancedPolyp
    case SerratedPolyp => a.polypLast10Years && a.serratedPolyp
    case PolypHistory => a.polypLast10Years && !a.advancedPolyp && !a.serratedPolyp
    case Symptomatic => a.symptoms
    case BelowScreeningAge => AgeBandHolds(c, age)
    case AverageRisk => AgeBandHolds(c, age)
    case AboveScreeningAge => AgeBandHolds(c, age)
  }

  /** Priority of a category: 0 is tested first and wins every tie. The rule
      table lists each category at the index of its priority. */
  function Priority(c: Category): (p: nat)
    ensures p < |RuleTable| && RuleTable[p] == c
  {
    match c
    case GeneticOrIbd => 0
    case FamilyBefore60 => 1
    case FamilyAt60OrLater => 2
    case AdvancedAdenoma => 3
    case SerratedPolyp => 4
    case PolypHistory => 5
    case Symptomatic => 6
    case BelowScreeningAge => 7
    case AverageRisk => 8
    case AboveScreeningAge => 9
  }

  /** Distinct categories have distinct priorities, so ties cannot remain. */
  lemma PriorityInjective(c: Category, d: Category)
    requires Priority(c) == Priority(d)
    ensures c == d
  {
  }

  /** Whatever the answers and the age, some category's condition holds. */
  lemma Exhaustive(age: int, a: Answers)
    ensures exists c :: Triggers(c, age, a)
  {
    assert Triggers(Classify(age, a), age, a);
  }

  /** The chain picks the highest-priority category whose condition holds. */
  lemma ClassifyIsHighestPriority(age: int, a: Answers)
    ensures Triggers(Classify(age, a), age, a)
    ensures forall d :: Triggers(d, age, a) ==> Priority(Classify(age, a)) <= Priority(d)
  {
    forall d | Triggers(d, age, a)
      ensures Priority(Classify(age, a)) <= Priority(d)
    {
      match d
      case GeneticOrIbd =>
      case FamilyBefore60 =>
      case FamilyAt60OrLater =>
      case AdvancedAdenoma =>
      case SerratedPolyp =>
      case PolypHistory =>
      case Symptomatic =>
      case BelowScreeningAge =>
      case AverageRisk =>
      case AboveScreeningAge =>
    }
  }

  /** Exactly one category: a category whose condition holds and that no
      higher-priority condition overrides is the one the chain returns. */
  lemma ClassifyUnique(age: int, a: Answers, c: Category)
    requires Triggers(c, age, a)
    requires forall d :: Priority(d) < Priority(c) ==> !Triggers(d, age, a)
    ensures Classify(age, a) == c
  {
    ClassifyIsHighestPriority(age, a);
    PriorityInjective(Classify(age, a), c);
  }

  /** Any genetic or IBD flag decides the outcome, whatever the family, polyp
      and symptom answers and the age (app.py:80). */
  lemma GeneticDominates(age: int, a: Answers)
    requires GeneticOrIbdFlag(a)
    ensures Classify(age, a) == GeneticOrIbd
  {
  }

  /** Without a genetic flag, a family history picks one of the two family
      categories by the relative's age at diagnosis (app.py:91-109). */
  lemma FamilyBranch(age: int, a: Answers)
    requires !GeneticOrIbdFlag(a) && a.familyCrc
    ensures Classify(age, a) == if a.familyBefore60 then FamilyBefore60 else FamilyAt60OrLater
  {
  }

  /** Without genetic or family flags, a recent polyp picks a polyp category:
      advanced adenoma before serrated, serrated before simple history (app.py:112-136). */
  lemma PolypBranch(age: int, a: Answers)
    requires !GeneticOrIbdFlag(a) && !a.familyCrc && a.polypLast10Years
    ensures a.advancedPolyp ==> Classify(age, a) == AdvancedAdenoma
    ensures !a.advancedPolyp && a.serratedPolyp ==> Classify(age, a) == SerratedPolyp
    ensures !a.advancedPolyp && !a.serratedPolyp ==> Classify(age, a) == PolypHistory
  {
  }

  /** The symptoms category comes out exactly when symptoms are reported and no
      genetic, family or polyp flag is set; it then overrides every age band (app.py:139-140). */
  lemma SymptomaticIff(age: int, a: Answers)
    ensures Classify(age, a) == Symptomatic
            <==> a.symptoms && !GeneticOrIbdFlag(a) && !a.familyCrc && !a.polypLast10Years
  {
  }

  /** Symptoms are not checked first: with a genetic, family or polyp flag set,
      reporting symptoms changes nothing and the symptoms category never comes out. */
  lemma SymptomsNeverOverrideRiskFlags(age: int, a: Answers)
    requires a.symptoms
    requires GeneticOrIbdFlag(a) || a.familyCrc || a.polypLast10Years
    ensures Classify(age, a) != Symptomatic
    ensures Classify(age, a) == Classify(age, a.(symptoms := false))
  {
  }

  /** An age band: one of the three categories decided by age alone. */
  predicate IsAgeBand(c: Category) {
    c == BelowScreeningAge || c == AverageRisk || c == AboveScreeningAge
  }

  /** The age condition of an age band (app.py:143, 147, 161); no other category has one. */
  predicate AgeBandHolds(c: Category, age: int) {
    match c
    case BelowScreeningAge => age < 50
    case AverageRisk => 50 <= age <= 75
    case AboveScreeningAge => age > 75
    case _ => false
  }

  /** With no risk flag and no symptom, age alone decides (app.py:143-162). */
  lemma AgeDecides(age: int, a: Answers)
    requires !GeneticOrIbdFlag(a) && !a.familyCrc && !a.polypLast10Years && !a.symptoms
    ensures IsAgeBand(Classify(age, a))
    ensures age < 50 ==> Classify(age, a) == BelowScreeningAge
    ensures 50 <= age <= 75 ==> Classify(age, a) == AverageRisk
    ensures age > 75 ==> Classify(age, a) == AboveScreeningAge
  {
  }

  /** The three age bands cover every age. */
  lemma AgeBandsCover(age: int)
    ensures exists b :: IsAgeBand(b) && AgeBandHolds(b, age)
  {
    var b := if age < 50 then BelowScreeningAge else if age <= 75 then AverageRisk else AboveScreeningAge;
    assert IsAgeBand(b) && AgeBandHolds(b, age);
  }

  /** No age falls in two age bands. */
  lemma AgeBandsDisjoint(age: int, c: Category, d: Category)
    requires AgeBandHolds(c, age) && AgeBandHolds(d, age)
    ensures c == d
  {
  }

  /** A category is an age band exactly when no flag and no symptom is set. */
  lemma AgeBandIff(age: int, a: Answers)
    ensures IsAgeBand(Classify(age, a))
            <==> !GeneticOrIbdFlag(a) && !a.familyCrc && !a.polypLast10Years && !a.symptoms
  {
  }

  /** Follow-up answers are consulted only under their parent question, so the
      form's gating never changes the outcome (app.py:53-62). */
  lemma ClassifyIgnoresUngatedFollowUps(age: int, raw: Answers)
    ensures Classify(age, Gate(raw)) == Classify(age, raw)
  {
  }

  /** The rule table: every category once, listed by priority. */
  const RuleTable: seq<Category> := [
    GeneticOrIbd, FamilyBefore60, FamilyAt60OrLater, AdvancedAdenoma, SerratedPolyp,
    PolypHistory, Symptomatic, BelowScreeningAge, AverageRisk, AboveScreeningAge
  ]

  /** Row j of the table holds the category of priority j. */
  lemma RuleTableRowPriority(j: nat)
    requires j < |RuleTable|
    ensures Priority(RuleTable[j]) == j
  {
  }

  /** Scan the table from row i and return the first category whose condition holds. */
  function FirstTriggered(rules: seq<Category>, i: nat, age: int, a: Answers): (r: Option<Category>)
    requires i <= |rules|
    ensures r.Some? ==> Triggers(r.value, age, a)
    decreases |rules| - i
  {
    if i == |rules| then None
    else if Triggers(rules[i], age, a) then Some(rules[i])
    else FirstTriggered(rules, i + 1, age, a)
  }

  datatype Option<T> = None | Some(value: T)

  /** The scan from row i returns row k when k is the first row from i on
      whose condition holds. */
  lemma {:induction false} FirstTriggeredFindsFirst(rules: seq<Category>, i: nat, k: nat, age: int, a: Answers)
    requires i <= k < |rules|
    requires Triggers(rules[k], age, a)
    requires forall j :: i <= j < k ==> !Triggers(rules[j], age, a)
    ensures FirstTriggered(rules, i, age, a) == Some(rules[k])
    decreases k - i
  {
    if i < k {
      FirstTriggeredFindsFirst(rules, i + 1, k, age, a);
    }
  }

  /** The if/elif chain and a single pass over the rule table agree on every input. */
  lemma ClassifyIsRuleTableScan(age: int, a: Answers)
    ensures FirstTriggered(RuleTable, 0, age, a) == Some(Classify(age, a))
  {
    var c := Classify(age, a);
    ClassifyIsHighestPriority(age, a);
    forall j | 0 <= j < Priority(c)
      ensures !Triggers(RuleTable[j], age, a)
    {
      RuleTableRowPriority(j);
    }
    FirstTriggeredFindsFirst(RuleTable, 0, Priority(c), age, a);
  }
}
