/** The fixed schema the questionnaire shows: seven sections, copied text for
    text, and the proof that its answer keys never alias. */
module AlimonySchema {
  import opened Schema

  const MarriageAndFamily: Section := Section("1. Marriage and Family Details", [
    "Date of marriage:",
    "Current marital status (e.g., separated, divorced):",
    "Duration of the marriage (in years):",
    "Number of children from this marriage:",
    "Current custody arrangement (if applicable):"
  ])

  const PersonalBackground: Section := Section("2. Personal Background", [
    "Full name:",
    "Date of birth and age:",
    "Educational qualifications:",
    "Any professional certifications or licenses:",
    "Do you have any physical or mental health conditions affecting your ability to work?"
  ])

  const EmploymentAndIncome: Section := Section("3. Employment and Income", [
    "Current employment status (employed/unemployed/self-employed):",
    "Occupation and job title (if employed):",
    "Name of employer/business (optional):",
    "Monthly income from employment or business:",
    "Other income sources (e.g., rent, dividends, family support):",
    "Have you filed income tax returns for the last 3 years?"
  ])

  const AssetsAndLiabilities: Section := Section("4. Financial Assets and Liabilities", [
    "List of immovable property owned (location, type, current value):",
    "List of movable assets (vehicles, electronics, jewelry, etc.):",
    "Details of bank accounts and balances (optional):",
    "Investments held (FDs, stocks, mutual funds, etc.):",
    "Outstanding loans or liabilities (type, lender, amount due):",
    "Any previous lump sum settlements or asset transfers between parties:"
  ])

  const MonthlyExpenses: Section := Section("5. Monthly Expenses", [
    "Monthly housing cost (rent/mortgage):",
    "Monthly utility and grocery expenses:",
    "Medical and insurance expenses:",
    "Educational expenses (self/children):",
    "Transport and communication expenses:",
    "Any other recurring monthly costs:"
  ])

  const ConductAndLitigation: Section := Section("6. Marital Conduct and Litigation History", [
    "Were there any allegations of cruelty, abuse, or misconduct?",
    "Any prior or ongoing litigation (maintenance, DV, child custody, etc.):",
    "Has either spouse contributed to litigation delay?",
    "Have there been any overlapping maintenance claims in other courts?"
  ])

  const StandardOfLiving: Section := Section("7. Standard of Living and Needs", [
    "Describe the standard of living enjoyed during the marriage:",
    "What is your current standard of living compared to during the marriage?",
    "Do you have any special or reasonable monthly needs (medical, dietary, etc.)?",
    "Do you require financial support to maintain a comparable lifestyle?"
  ])

  const AlimonySections: seq<Section> := [
    MarriageAndFamily, PersonalBackground, EmploymentAndIncome, AssetsAndLiabilities,
    MonthlyExpenses, ConductAndLitigation, StandardOfLiving
  ]

  /** Every question of the section ends in ':' or '?', never in the 's'
      that ends a comment key. */
  ghost predicate QuestionsEndInPunctuation(section: Section)
  {
    forall j :: 0 <= j < |section.questions| ==> LastCharIsPunctuation(section.questions[j])
  }

  ghost predicate LastCharIsPunctuation(s: string)
  {
    |s| > 0 && (s[|s| - 1] == ':' || s[|s| - 1] == '?')
  }

  // One lemma per section, and one per pair of sections: each is checked
  // against the text of those sections alone.

  lemma MarriageAndFamilyQuestions()
    ensures QuestionsEndInPunctuation(MarriageAndFamily)
    ensures QuestionsUnique(MarriageAndFamily)
  {
  }

  lemma PersonalBackgroundQuestions()
    ensures QuestionsEndInPunctuation(PersonalBackground)
    ensures QuestionsUnique(PersonalBackground)
  {
  }

  lemma EmploymentAndIncomeQuestions()
    ensures QuestionsEndInPunctuation(EmploymentAndIncome)
    ensures QuestionsUnique(EmploymentAndIncome)
  {
  }

  lemma AssetsAndLiabilitiesQuestions()
    ensures QuestionsEndInPunctuation(AssetsAndLiabilities)
    ensures QuestionsUnique(AssetsAndLiabilities)
  {
  }

  lemma MonthlyExpensesQuestions()
    ensures QuestionsEndInPunctuation(MonthlyExpenses)
    ensures QuestionsUnique(MonthlyExpenses)
  {
  }

  lemma ConductAndLitigationQuestions()
    ensures QuestionsEndInPunctuation(ConductAndLitigation)
    ensures QuestionsUnique(ConductAndLitigation)
  {
  }

  lemma StandardOfLivingQuestions()
    ensures QuestionsEndInPunctuation(StandardOfLiving)
    ensures QuestionsUnique(StandardOfLiving)
  {
  }

  lemma Sections1And2ShareNoQuestion()
    ensures QuestionsDisjoint(MarriageAndFamily, PersonalBackground)
  {
  }

  lemma Sections1And3ShareNoQuestion()
    ensures QuestionsDisjoint(MarriageAndFamily, EmploymentAndIncome)
  {
  }

  lemma Sections1And4ShareNoQuestion()
    ensures QuestionsDisjoint(MarriageAndFamily, AssetsAndLiabilities)
  {
  }

  lemma Sections1And5ShareNoQuestion()
    ensures QuestionsDisjoint(MarriageAndFamily, MonthlyExpenses)
  {
  }

  lemma Sections1And6ShareNoQuestion()
    ensures QuestionsDisjoint(MarriageAndFamily, ConductAndLitigation)
  {
  }

  lemma Sections1And7ShareNoQuestion()
    ensures QuestionsDisjoint(MarriageAndFamily, StandardOfLiving)
  {
  }

  lemma Sections2And3ShareNoQuestion()
    ensures QuestionsDisjoint(PersonalBackground, EmploymentAndIncome)
  {
  }

  lemma Sections2And4ShareNoQuestion()
    ensures QuestionsDisjoint(PersonalBackground, AssetsAndLiabilities)
  {
  }

  lemma Sections2And5ShareNoQuestion()
    ensures QuestionsDisjoint(PersonalBackground, MonthlyExpenses)
  {
  }

  lemma Sections2And6ShareNoQuestion()
    ensures QuestionsDisjoint(PersonalBackground, ConductAndLitigation)
  {
  }

  lemma Sections2And7ShareNoQuestion()
    ensures QuestionsDisjoint(PersonalBackground, StandardOfLiving)
  {
  }

  lemma Sections3And4ShareNoQuestion()
    ensures QuestionsDisjoint(EmploymentAndIncome, AssetsAndLiabilities)
  {
  }

  lemma Sections3And5ShareNoQuestion()
    ensures QuestionsDisjoint(EmploymentAndIncome, MonthlyExpenses)
  {
  }

  lemma Sections3And6ShareNoQuestion()
    ensures QuestionsDisjoint(EmploymentAndIncome, ConductAndLitigation)
  {
  }

  lemma Sections3And7ShareNoQuestion()
    ensures QuestionsDisjoint(EmploymentAndIncome, StandardOfLiving)
  {
  }

  lemma Sections4And5ShareNoQuestion()
    ensures QuestionsDisjoint(AssetsAndLiabilities, MonthlyExpenses)
  {
  }

  lemma Sections4And6ShareNoQuestion()
    ensures QuestionsDisjoint(AssetsAndLiabilities, ConductAndLitigation)
  {
  }

  lemma Sections4And7ShareNoQuestion()
    ensures QuestionsDisjoint(AssetsAndLiabilities, StandardOfLiving)
  {
  }

  lemma Sections5And6ShareNoQuestion()
    ensures QuestionsDisjoint(MonthlyExpenses, ConductAndLitigation)
  {
  }

  lemma Sections5And7ShareNoQuestion()
    ensures QuestionsDisjoint(MonthlyExpenses, StandardOfLiving)
  {
  }

  lemma Sections6And7ShareNoQuestion()
    ensures QuestionsDisjoint(ConductAndLitigation, StandardOfLiving)
  {
  }

  /** No question of the fixed schema occurs twice. */
  lemma AlimonyQuestionsDistinct()
    ensures QuestionsDistinct(AlimonySections)
  {
    var s := AlimonySections;
    MarriageAndFamilyQuestions();
    PersonalBackgroundQuestions();
    EmploymentAndIncomeQuestions();
    AssetsAndLiabilitiesQuestions();
    MonthlyExpensesQuestions();
    ConductAndLitigationQuestions();
    StandardOfLivingQuestions();
    Sections1And2ShareNoQuestion();
    Sections1And3ShareNoQuestion();
    Sections1And4ShareNoQuestion();
    Sections1And5ShareNoQuestion();
    Sections1And6ShareNoQuestion();
    Sections1And7ShareNoQuestion();
    Sections2And3ShareNoQuestion();
    Sections2And4ShareNoQuestion();
    Sections2And5ShareNoQuestion();
    Sections2And6ShareNoQuestion();
    Sections2And7ShareNoQuestion();
    Sections3And4ShareNoQuestion();
    Sections3And5ShareNoQuestion();
    Sections3And6ShareNoQuestion();
    Sections3And7ShareNoQuestion();
    Sections4And5ShareNoQuestion();
    Sections4And6ShareNoQuestion();
    Sections4And7ShareNoQuestion();
    Sections5And6ShareNoQuestion();
    Sections5And7ShareNoQuestion();
    Sections6And7ShareNoQuestion();
    assert forall i :: 0 <= i < |s| ==> QuestionsUnique(s[i]);
    assert forall i, i' :: 0 <= i < i' < |s| ==> QuestionsDisjoint(s[i], s[i']);
    QuestionsDistinctBySection(s);
  }

  /** The fixed schema's answer keys never alias: each question field, each
      comment field and the exporter address one slot of their own. */
  lemma AlimonySlotsDistinct()
    ensures |AlimonySections| == 7
    ensures SlotsDistinct(AlimonySections)
  {
    var s := AlimonySections;
    MarriageAndFamilyQuestions();
    PersonalBackgroundQuestions();
    EmploymentAndIncomeQuestions();
    AssetsAndLiabilitiesQuestions();
    MonthlyExpensesQuestions();
    ConductAndLitigationQuestions();
    StandardOfLivingQuestions();
    AlimonyQuestionsDistinct();
    assert forall i :: 0 <= i < |s| ==> QuestionsEndInPunctuation(s[i]);
    forall i, i' | 0 <= i < i' < |s| ensures s[i].title != s[i'].title {
      assert s[i].title[0] != s[i'].title[0];
    }
    forall i, j, i' | 0 <= i < |s| && 0 <= j < |s[i].questions| && 0 <= i' < |s|
      ensures s[i].questions[j] != CommentKey(s[i'].title)
    {
      assert QuestionsEndInPunctuation(s[i]);
      var k := CommentKey(s[i'].title);
      assert k[|k| - 1] == CommentSuffix[|CommentSuffix| - 1] == 's';
    }
  }
}
