/** The plain-text export of the questionnaire.  For each spouse in turn the
    exporter writes a banner, then every section in schema order: the title,
    each question followed by that spouse's answer, and the section's
    "Additional Comments" block.  The specification is the recursive function
    TextOf; the exporter itself, GenerateText, is the nested loop that appends
    to one result string, and is proved to produce TextOf. */
module TextExport {
  import opened Schema
  import opened AnswerStore

  /** The heading a spouse's block carries. */
  function LabelOf(spouseKey: string): string
  {
    if spouseKey == Spouse1 then "Spouse 1" else "Spouse 2"
  }

  function Banner(spouseLabel: string): string
  {
    "\n=============================\n" + spouseLabel + " Responses\n=============================\n"
  }

  function SectionHeading(title: string): string
  {
    "\n" + title + "\n"
  }

  function QuestionLine(question: string, answer: string): string
  {
    "\n" + question + "\n" + answer + "\n"
  }

  function CommentLine(comment: string): string
  {
    "\nAdditional Comments:\n" + comment + "\n"
  }

  /** Each question of `questions`, in order, with its answer from `r`. */
  function QuestionsText(questions: seq<string>, r: Responses): string
  {
    if questions == [] then ""
    else QuestionLine(questions[0], AnswerOf(r, questions[0])) + QuestionsText(questions[1..], r)
  }

  /** One section of one spouse's block. */
  function SectionBlock(section: Section, r: Responses): string
  {
    SectionHeading(section.title)
      + QuestionsText(section.questions, r)
      + CommentLine(AnswerOf(r, CommentKey(section.title)))
  }

  /** Every section of `schema`, in order, answered from `r`. */
  function SectionsText(schema: seq<Section>, r: Responses): string
  {
    if schema == [] then "" else SectionBlock(schema[0], r) + SectionsText(schema[1..], r)
  }

  /** One spouse's block: the banner, then all sections with that spouse's answers. */
  function SpouseBlock(spouseKey: string, schema: seq<Section>, store: Store): string
    requires spouseKey in store
  {
    Banner(LabelOf(spouseKey)) + SectionsText(schema, store[spouseKey])
  }

  /** The blocks of `spouses`, in order. */
  function SpousesText(spouses: seq<string>, schema: seq<Section>, store: Store): string
    requires forall k :: 0 <= k < |spouses| ==> spouses[k] in store
  {
    if spouses == [] then "" else SpouseBlock(spouses[0], schema, store) + SpousesText(spouses[1..], schema, store)
  }

  /** The whole export: spouse 1's block, then spouse 2's. */
  function TextOf(schema: seq<Section>, store: Store): string
    requires WellFormed(store)
  {
    SpousesText(SpouseKeys, schema, store)
  }

  // ---------------------------------------------------------------------------
  // Concatenation over a split list of questions, sections or spouses

  // A proof hint: concatenation regrouped, stated once for the solver.
  lemma Assoc(x: string, y: string, z: string)
    ensures (x + y) + z == x + (y + z)
  {
  }

  lemma {:induction false} QuestionsTextAppend(a: seq<string>, b: seq<string>, r: Responses)
    ensures QuestionsText(a + b, r) == QuestionsText(a, r) + QuestionsText(b, r)
  {
    if a == [] {
      assert a + b == b;
    } else {
      assert (a + b)[0] == a[0] && (a + b)[1..] == a[1..] + b;
      QuestionsTextAppend(a[1..], b, r);
      var head := QuestionLine(a[0], AnswerOf(r, a[0]));
      calc {
        QuestionsText(a + b, r);
        head + QuestionsText(a[1..] + b, r);
        head + (QuestionsText(a[1..], r) + QuestionsText(b, r));
          { Assoc(head, QuestionsText(a[1..], r), QuestionsText(b, r)); }
        (head + QuestionsText(a[1..], r)) + QuestionsText(b, r);
      }
    }
  }

  lemma {:induction false} SectionsTextAppend(a: seq<Section>, b: seq<Section>, r: Responses)
    ensures SectionsText(a + b, r) == SectionsText(a, r) + SectionsText(b, r)
  {
    if a == [] {
      assert a + b == b;
    } else {
      assert (a + b)[0] == a[0] && (a + b)[1..] == a[1..] + b;
      SectionsTextAppend(a[1..], b, r);
      var head := SectionBlock(a[0], r);
      calc {
        SectionsText(a + b, r);
        head + SectionsText(a[1..] + b, r);
        head + (SectionsText(a[1..], r) + SectionsText(b, r));
          { Assoc(head, SectionsText(a[1..], r), SectionsText(b, r)); }
        (head + SectionsText(a[1..], r)) + SectionsText(b, r);
      }
    }
  }

  lemma {:induction false} SpousesTextAppend(a: seq<string>, b: seq<string>, schema: seq<Section>, store: Store)
    requires forall k :: 0 <= k < |a| ==> a[k] in store
    requires forall k :: 0 <= k < |b| ==> b[k] in store
    ensures forall k :: 0 <= k < |a + b| ==> (a + b)[k] in store
    ensures SpousesText(a + b, schema, store) == SpousesText(a, schema, store) + SpousesText(b, schema, store)
  {
    if a == [] {
      assert a + b == b;
    } else {
      assert (a + b)[0] == a[0] && (a + b)[1..] == a[1..] + b;
      SpousesTextAppend(a[1..], b, schema, store);
      var head := SpouseBlock(a[0], schema, store);
      calc {
        SpousesText(a + b, schema, store);
        head + SpousesText(a[1..] + b, schema, store);
        head + (SpousesText(a[1..], schema, store) + SpousesText(b, schema, store));
          { Assoc(head, SpousesText(a[1..], schema, store), SpousesText(b, schema, store)); }
        (head + SpousesText(a[1..], schema, store)) + SpousesText(b, schema, store);
      }
    }
  }

  /** One more question, section or spouse appends its text at the end. */
  lemma QuestionsTextSnoc(questions: seq<string>, j: nat, r: Responses)
    requires j < |questions|
    ensures QuestionsText(questions[..j + 1], r)
         == QuestionsText(questions[..j], r) + QuestionLine(questions[j], AnswerOf(r, questions[j]))
  {
    assert questions[..j + 1] == questions[..j] + [questions[j]];
    QuestionsTextAppend(questions[..j], [questions[j]], r);
    assert [questions[j]][1..] == [];
  }

  lemma SectionsTextSnoc(schema: seq<Section>, i: nat, r: Responses)
    requires i < |schema|
    ensures SectionsText(schema[..i + 1], r) == SectionsText(schema[..i], r) + SectionBlock(schema[i], r)
  {
    assert schema[..i + 1] == schema[..i] + [schema[i]];
    SectionsTextAppend(schema[..i], [schema[i]], r);
    assert [schema[i]][1..] == [];
  }

  lemma SpousesTextSnoc(spouses: seq<string>, s: nat, schema: seq<Section>, store: Store)
    requires s < |spouses|
    requires forall k :: 0 <= k < |spouses| ==> spouses[k] in store
    ensures SpousesText(spouses[..s + 1], schema, store)
         == SpousesText(spouses[..s], schema, store) + SpouseBlock(spouses[s], schema, store)
  {
    assert spouses[..s + 1] == spouses[..s] + [spouses[s]];
    SpousesTextAppend(spouses[..s], [spouses[s]], schema, store);
    assert [spouses[s]][1..] == [];
  }

  // ---------------------------------------------------------------------------
  // The exporter

  /** The body of the exporter's per-spouse pass: every section of the schema,
      each question with this spouse's answer, then the comment block, appended
      to `prefix`. */
  method AppendSections(prefix: string, schema: seq<Section>, responses: Responses) returns (result: string)
    ensures result == prefix + SectionsText(schema, responses)
  {
    result := prefix;
    for i := 0 to |schema|
      invariant result == prefix + SectionsText(schema[..i], responses)
    {
      var section := schema[i];
      ghost var sectionStart := result;
      result := result + SectionHeading(section.title);
      ghost var questionsStart := result;
      for j := 0 to |section.questions|
        invariant result == questionsStart + QuestionsText(section.questions[..j], responses)
      {
        var q := section.questions[j];
        var line := QuestionLine(q, AnswerOf(responses, q));
        Assoc(questionsStart, QuestionsText(section.questions[..j], responses), line);
        result := result + line;
        QuestionsTextSnoc(section.questions, j, responses);
      }
      var comment := CommentLine(AnswerOf(responses, CommentKey(section.title)));
      result := result + comment;
      assert section.questions[..|section.questions|] == section.questions;
      ghost var heading, questions := SectionHeading(section.title), QuestionsText(section.questions, responses);
      Assoc(sectionStart, heading, questions);
      Assoc(sectionStart, heading + questions, comment);
      assert result == sectionStart + SectionBlock(section, responses);
      Assoc(prefix, SectionsText(schema[..i], responses), SectionBlock(section, responses));
      SectionsTextSnoc(schema, i, responses);
    }
    assert schema[..|schema|] == schema;
  }

  /** The exporter: one result string, extended spouse by spouse with the
      spouse's banner and sections.  The file-save step that follows it in the
      application is not part of this model; the text is returned. */
  method GenerateText(schema: seq<Section>, store: Store) returns (result: string)
    requires WellFormed(store)
    ensures result == TextOf(schema, store)
  {
    result := "";
    for s := 0 to |SpouseKeys|
      invariant result == SpousesText(SpouseKeys[..s], schema, store)
    {
      var spouseKey := SpouseKeys[s];
      var spouseLabel := LabelOf(spouseKey);
      ghost var spouseStart := result;
      result := result + Banner(spouseLabel);
      result := AppendSections(result, schema, store[spouseKey]);
      Assoc(spouseStart, Banner(spouseLabel), SectionsText(schema, store[spouseKey]));
      SpousesTextSnoc(SpouseKeys, s, schema, store);
    }
    assert SpouseKeys[..|SpouseKeys|] == SpouseKeys;
  }
}
