/** What the plain-text export promises: its overall shape, where each answer
    lands, that only schema keys are read, what an unanswered form looks like,
    and that a value typed into a field is the value exported for it. */
module ExportProperties {
  import opened Schema
  import opened AnswerStore
  import opened TextExport
  import opened AlimonySchema

  // ---------------------------------------------------------------------------
  // Shape

  /** The export is spouse 1's banner and sections, then spouse 2's. */
  lemma TextOfShape(schema: seq<Section>, store: Store)
    requires WellFormed(store)
    ensures TextOf(schema, store)
         == Banner("Spouse 1") + SectionsText(schema, store[Spouse1])
          + Banner("Spouse 2") + SectionsText(schema, store[Spouse2])
  {
    var b1 := SpouseBlock(Spouse1, schema, store);
    var b2 := SpouseBlock(Spouse2, schema, store);
    assert LabelOf(Spouse1) == "Spouse 1";
    assert LabelOf(Spouse2) == "Spouse 2" by {
      assert Spouse2[6] != Spouse1[6];
    }
    assert SpouseKeys[1..] == [Spouse2] && [Spouse2][1..] == [];
    assert SpousesText(SpouseKeys[1..], schema, store) == b2 + "";
    assert TextOf(schema, store) == b1 + b2;
    Assoc(b1, Banner("Spouse 2"), SectionsText(schema, store[Spouse2]));
  }

  /** Section `i` of a spouse's sections: its heading, its questions, its
      comment block, after every earlier section and before every later one. */
  lemma SectionSlot(schema: seq<Section>, r: Responses, i: nat)
    requires i < |schema|
    ensures SectionsText(schema, r)
         == SectionsText(schema[..i], r)
          + SectionHeading(schema[i].title)
          + QuestionsText(schema[i].questions, r)
          + CommentLine(AnswerOf(r, CommentKey(schema[i].title)))
          + SectionsText(schema[i + 1..], r)
  {
    var a, rest := schema[..i], schema[i + 1..];
    assert schema == a + ([schema[i]] + rest);
    SectionsTextAppend(a, [schema[i]] + rest, r);
    assert ([schema[i]] + rest)[1..] == rest;
    var h, q, c := SectionHeading(schema[i].title), QuestionsText(schema[i].questions, r),
      CommentLine(AnswerOf(r, CommentKey(schema[i].title)));
    var at := SectionsText(a, r);
    calc {
      SectionsText(schema, r);
      at + (((h + q) + c) + SectionsText(rest, r));
      { Assoc(at, (h + q) + c, SectionsText(rest, r)); }
      (at + ((h + q) + c)) + SectionsText(rest, r);
      { Assoc(at, h + q, c); Assoc(at, h, q); }
      (((at + h) + q) + c) + SectionsText(rest, r);
    }
  }

  /** Question `j` of section `i` is written as its text then the spouse's
      answer, after the earlier questions of its section and before the later
      ones and the section's comment block. */
  lemma QuestionSlot(schema: seq<Section>, r: Responses, i: nat, j: nat)
    requires i < |schema| && j < |schema[i].questions|
    ensures var qs := schema[i].questions;
      SectionsText(schema, r)
         == SectionsText(schema[..i], r)
          + SectionHeading(schema[i].title)
          + QuestionsText(qs[..j], r)
          + QuestionLine(qs[j], AnswerOf(r, qs[j]))
          + QuestionsText(qs[j + 1..], r)
          + CommentLine(AnswerOf(r, CommentKey(schema[i].title)))
          + SectionsText(schema[i + 1..], r)
  {
    var qs := schema[i].questions;
    SectionSlot(schema, r, i);
    QuestionsTextAround(qs, r, j);
    var ah := SectionsText(schema[..i], r) + SectionHeading(schema[i].title);
    var q1, ql, q2 := QuestionsText(qs[..j], r), QuestionLine(qs[j], AnswerOf(r, qs[j])), QuestionsText(qs[j + 1..], r);
    assert QuestionsText(qs, r) == q1 + (ql + q2);
    calc {
      ah + QuestionsText(qs, r);
      ah + (q1 + (ql + q2));
      { Assoc(ah, q1, ql + q2); }
      (ah + q1) + (ql + q2);
      { Assoc(ah + q1, ql, q2); }
      ((ah + q1) + ql) + q2;
    }
  }

  /** A section's questions split around question `j`. */
  lemma QuestionsTextAround(qs: seq<string>, r: Responses, j: nat)
    requires j < |qs|
    ensures QuestionsText(qs, r)
         == QuestionsText(qs[..j], r) + (QuestionLine(qs[j], AnswerOf(r, qs[j])) + QuestionsText(qs[j + 1..], r))
  {
    assert qs == qs[..j] + ([qs[j]] + qs[j + 1..]);
    QuestionsTextAppend(qs[..j], [qs[j]] + qs[j + 1..], r);
    assert ([qs[j]] + qs[j + 1..])[1..] == qs[j + 1..];
  }

  // ---------------------------------------------------------------------------
  // Only schema keys are read

  /** Two response maps that give the same answer for every schema key. */
  ghost predicate AgreeOnSchema(schema: seq<Section>, r1: Responses, r2: Responses)
  {
    forall key :: IsSchemaKey(schema, key) ==> AnswerOf(r1, key) == AnswerOf(r2, key)
  }

  lemma {:induction false} QuestionsTextAgree(questions: seq<string>, r1: Responses, r2: Responses)
    requires forall j :: 0 <= j < |questions| ==> AnswerOf(r1, questions[j]) == AnswerOf(r2, questions[j])
    ensures QuestionsText(questions, r1) == QuestionsText(questions, r2)
  {
    if questions != [] {
      QuestionsTextAgree(questions[1..], r1, r2);
    }
  }

  /** The keys of a later part of the schema are keys of the whole schema. */
  lemma SchemaKeyOfSuffix(schema: seq<Section>, n: nat, key: string)
    requires n <= |schema| && IsSchemaKey(schema[n..], key)
    ensures IsSchemaKey(schema, key)
  {
    var tail := schema[n..];
    if IsQuestionKey(tail, key) {
      var i, j :| 0 <= i < |tail| && 0 <= j < |tail[i].questions| && tail[i].questions[j] == key;
      assert schema[n + i].questions[j] == key;
    } else {
      var i :| 0 <= i < |tail| && CommentKey(tail[i].title) == key;
      assert CommentKey(schema[n + i].title) == key;
    }
  }

  /** The keys of an earlier part of the schema are keys of the whole schema. */
  lemma SchemaKeyOfPrefix(schema: seq<Section>, n: nat, key: string)
    requires n <= |schema| && IsSchemaKey(schema[..n], key)
    ensures IsSchemaKey(schema, key)
  {
    var head := schema[..n];
    if IsQuestionKey(head, key) {
      var i, j :| 0 <= i < |head| && 0 <= j < |head[i].questions| && head[i].questions[j] == key;
      assert schema[i].questions[j] == key;
    } else {
      var i :| 0 <= i < |head| && CommentKey(head[i].title) == key;
      assert CommentKey(schema[i].title) == key;
    }
  }

  /** A spouse's sections depend only on the answers under schema keys. */
  lemma {:induction false} SectionsTextAgree(schema: seq<Section>, r1: Responses, r2: Responses)
    requires AgreeOnSchema(schema, r1, r2)
    ensures SectionsText(schema, r1) == SectionsText(schema, r2)
  {
    if schema != [] {
      var qs := schema[0].questions;
      forall j | 0 <= j < |qs| ensures AnswerOf(r1, qs[j]) == AnswerOf(r2, qs[j]) {
        assert IsQuestionKey(schema, schema[0].questions[j]);
      }
      QuestionsTextAgree(qs, r1, r2);
      assert IsCommentKey(schema, CommentKey(schema[0].title));
      forall key | IsSchemaKey(schema[1..], key) ensures AnswerOf(r1, key) == AnswerOf(r2, key) {
        SchemaKeyOfSuffix(schema, 1, key);
      }
      SectionsTextAgree(schema[1..], r1, r2);
    }
  }

  /** The export depends only on the two spouses' answers under schema keys:
      entries under any other key, and any other spouse, are never read. */
  lemma TextOfAgree(schema: seq<Section>, s1: Store, s2: Store)
    requires WellFormed(s1) && WellFormed(s2)
    requires AgreeOnSchema(schema, s1[Spouse1], s2[Spouse1])
    requires AgreeOnSchema(schema, s1[Spouse2], s2[Spouse2])
    ensures TextOf(schema, s1) == TextOf(schema, s2)
  {
    SectionsTextAgree(schema, s1[Spouse1], s2[Spouse1]);
    SectionsTextAgree(schema, s1[Spouse2], s2[Spouse2]);
    TextOfShape(schema, s1);
    TextOfShape(schema, s2);
  }

  /** Writing a key the schema does not use, or writing for a respondent other
      than the two spouses, leaves the export unchanged. */
  lemma UpdateOffSchemaKeepsText(schema: seq<Section>, store: Store, spouse: string, key: string, value: string)
    requires WellFormed(store)
    requires !IsSchemaKey(schema, key) || (spouse != Spouse1 && spouse != Spouse2)
    ensures TextOf(schema, Update(store, spouse, key, value)) == TextOf(schema, store)
  {
    var s' := Update(store, spouse, key, value);
    forall sp | sp == Spouse1 || sp == Spouse2
      ensures AgreeOnSchema(schema, s'[sp], store[sp])
    {
      forall k | IsSchemaKey(schema, k) ensures AnswerOf(s'[sp], k) == AnswerOf(store[sp], k) {
        ReadAfterUpdate(store, spouse, key, value, sp, k);
      }
    }
    TextOfAgree(schema, s', store);
  }

  // ---------------------------------------------------------------------------
  // Fields and the export address the same slots

  /** What a question field (one per question, per spouse) writes is what the
      export shows under that question. */
  lemma QuestionFieldIsExported(schema: seq<Section>, store: Store, spouse: string, i: nat, j: nat, value: string)
    requires i < |schema| && j < |schema[i].questions|
    ensures var qs := schema[i].questions;
      var r := Update(store, spouse, qs[j], value)[spouse];
      SectionsText(schema, r)
         == SectionsText(schema[..i], r)
          + SectionHeading(schema[i].title)
          + QuestionsText(qs[..j], r)
          + QuestionLine(qs[j], value)
          + QuestionsText(qs[j + 1..], r)
          + CommentLine(AnswerOf(r, CommentKey(schema[i].title)))
          + SectionsText(schema[i + 1..], r)
  {
    var r := Update(store, spouse, schema[i].questions[j], value)[spouse];
    QuestionSlot(schema, r, i, j);
  }

  /** In a schema whose slots do not alias, a key of the sections before or
      after section `i` is not the text of question `j` of section `i`. */
  lemma QuestionKeyNotElsewhere(schema: seq<Section>, i: nat, j: nat, k: string)
    requires SlotsDistinct(schema) && i < |schema| && j < |schema[i].questions|
    requires IsSchemaKey(schema[..i], k) || IsSchemaKey(schema[i + 1..], k)
    ensures k != schema[i].questions[j]
  {
    var q := schema[i].questions[j];
    var head, tail := schema[..i], schema[i + 1..];
    if IsQuestionKey(head, k) {
      var a, b :| 0 <= a < |head| && 0 <= b < |head[a].questions| && head[a].questions[b] == k;
      assert schema[a].questions[b] != q;
    } else if IsCommentKey(head, k) {
      var a :| 0 <= a < |head| && CommentKey(head[a].title) == k;
      assert q != CommentKey(schema[a].title);
    } else if IsQuestionKey(tail, k) {
      var a, b :| 0 <= a < |tail| && 0 <= b < |tail[a].questions| && tail[a].questions[b] == k;
      assert schema[i + 1 + a].questions[b] != q;
    } else {
      var a :| 0 <= a < |tail| && CommentKey(tail[a].title) == k;
      assert q != CommentKey(schema[i + 1 + a].title);
    }
  }

  lemma EarlierSectionsIgnoreQuestionEdit(schema: seq<Section>, r: Responses, i: nat, j: nat, value: string)
    requires SlotsDistinct(schema) && i < |schema| && j < |schema[i].questions|
    ensures SectionsText(schema[..i], r[schema[i].questions[j] := value]) == SectionsText(schema[..i], r)
  {
    var r' := r[schema[i].questions[j] := value];
    forall k | IsSchemaKey(schema[..i], k) ensures AnswerOf(r', k) == AnswerOf(r, k) {
      QuestionKeyNotElsewhere(schema, i, j, k);
    }
    SectionsTextAgree(schema[..i], r', r);
  }

  lemma LaterSectionsIgnoreQuestionEdit(schema: seq<Section>, r: Responses, i: nat, j: nat, value: string)
    requires SlotsDistinct(schema) && i < |schema| && j < |schema[i].questions|
    ensures SectionsText(schema[i + 1..], r[schema[i].questions[j] := value]) == SectionsText(schema[i + 1..], r)
  {
    var r' := r[schema[i].questions[j] := value];
    forall k | IsSchemaKey(schema[i + 1..], k) ensures AnswerOf(r', k) == AnswerOf(r, k) {
      QuestionKeyNotElsewhere(schema, i, j, k);
    }
    SectionsTextAgree(schema[i + 1..], r', r);
  }

  /** Writing the text of question `j` of section `i` leaves every earlier and
      later section, the section's other questions and its comment as before. */
  lemma QuestionEditKeepsOtherSlots(schema: seq<Section>, r: Responses, i: nat, j: nat, value: string)
    requires SlotsDistinct(schema) && i < |schema| && j < |schema[i].questions|
    ensures var qs := schema[i].questions;
      var r' := r[qs[j] := value];
      && SectionsText(schema[..i], r') == SectionsText(schema[..i], r)
      && QuestionsText(qs[..j], r') == QuestionsText(qs[..j], r)
      && QuestionsText(qs[j + 1..], r') == QuestionsText(qs[j + 1..], r)
      && AnswerOf(r', CommentKey(schema[i].title)) == AnswerOf(r, CommentKey(schema[i].title))
      && SectionsText(schema[i + 1..], r') == SectionsText(schema[i + 1..], r)
  {
    var qs := schema[i].questions;
    var r' := r[qs[j] := value];
    EarlierSectionsIgnoreQuestionEdit(schema, r, i, j, value);
    LaterSectionsIgnoreQuestionEdit(schema, r, i, j, value);
    var before, after := qs[..j], qs[j + 1..];
    forall b | 0 <= b < |before| ensures AnswerOf(r', before[b]) == AnswerOf(r, before[b]) {
      assert before[b] == schema[i].questions[b] != schema[i].questions[j];
    }
    QuestionsTextAgree(before, r', r);
    forall b | 0 <= b < |after| ensures AnswerOf(r', after[b]) == AnswerOf(r, after[b]) {
      assert after[b] == schema[i].questions[j + 1 + b] != schema[i].questions[j];
    }
    QuestionsTextAgree(after, r', r);
    assert qs[j] != CommentKey(schema[i].title);
  }

  /** In a schema whose slots do not alias, what a question field writes is
      what the export shows under that question, and every other part of the
      spouse's sections is exactly as before. */
  lemma QuestionFieldChangesOnlyItsSlot(schema: seq<Section>, store: Store, spouse: string, i: nat, j: nat, value: string)
    requires SlotsDistinct(schema)
    requires i < |schema| && j < |schema[i].questions|
    ensures var qs := schema[i].questions;
      var r := ResponsesOf(store, spouse);
      var r' := Update(store, spouse, qs[j], value)[spouse];
      SectionsText(schema, r')
         == SectionsText(schema[..i], r)
          + SectionHeading(schema[i].title)
          + QuestionsText(qs[..j], r)
          + QuestionLine(qs[j], value)
          + QuestionsText(qs[j + 1..], r)
          + CommentLine(AnswerOf(r, CommentKey(schema[i].title)))
          + SectionsText(schema[i + 1..], r)
  {
    var qs := schema[i].questions;
    var r := ResponsesOf(store, spouse);
    var r' := Update(store, spouse, qs[j], value)[spouse];
    assert r' == r[qs[j] := value];
    QuestionSlot(schema, r', i, j);
    QuestionEditKeepsOtherSlots(schema, r, i, j, value);
  }

  /** For the questionnaire's own seven sections, typing into a question
      field changes that question's answer in the export and nothing else in
      the spouse's sections. */
  lemma AlimonyQuestionFieldChangesOnlyItsSlot(store: Store, spouse: string, i: nat, j: nat, value: string)
    requires i < |AlimonySections| && j < |AlimonySections[i].questions|
    ensures var schema := AlimonySections;
      var qs := schema[i].questions;
      var r := ResponsesOf(store, spouse);
      var r' := Update(store, spouse, qs[j], value)[spouse];
      SectionsText(schema, r')
         == SectionsText(schema[..i], r)
          + SectionHeading(schema[i].title)
          + QuestionsText(qs[..j], r)
          + QuestionLine(qs[j], value)
          + QuestionsText(qs[j + 1..], r)
          + CommentLine(AnswerOf(r, CommentKey(schema[i].title)))
          + SectionsText(schema[i + 1..], r)
  {
    AlimonySlotsDistinct();
    QuestionFieldChangesOnlyItsSlot(AlimonySections, store, spouse, i, j, value);
  }

  /** Writing section `i`'s comment key leaves the text of every earlier
      section, every later section and section `i`'s own questions as before. */
  lemma CommentEditKeepsOtherSlots(schema: seq<Section>, r: Responses, i: nat, value: string)
    requires SlotsDistinct(schema)
    requires i < |schema|
    ensures var r' := r[CommentKey(schema[i].title) := value];
      && SectionsText(schema[..i], r') == SectionsText(schema[..i], r)
      && QuestionsText(schema[i].questions, r') == QuestionsText(schema[i].questions, r)
      && SectionsText(schema[i + 1..], r') == SectionsText(schema[i + 1..], r)
  {
    EarlierSectionsIgnoreCommentEdit(schema, r, i, value);
    LaterSectionsIgnoreCommentEdit(schema, r, i, value);
    var key := CommentKey(schema[i].title);
    var r' := r[key := value];
    var qs := schema[i].questions;
    forall j | 0 <= j < |qs| ensures AnswerOf(r', qs[j]) == AnswerOf(r, qs[j]) {
      assert qs[j] != key;
    }
    QuestionsTextAgree(qs, r', r);
  }

  lemma EarlierSectionsIgnoreCommentEdit(schema: seq<Section>, r: Responses, i: nat, value: string)
    requires SlotsDistinct(schema)
    requires i < |schema|
    ensures SectionsText(schema[..i], r[CommentKey(schema[i].title) := value]) == SectionsText(schema[..i], r)
  {
    var key := CommentKey(schema[i].title);
    var r' := r[key := value];
    forall k | IsSchemaKey(schema[..i], k) ensures AnswerOf(r', k) == AnswerOf(r, k) {
      SchemaKeyOfPrefix(schema, i, k);
      OtherKeyUnchanged(schema, i, k, key);
    }
    SectionsTextAgree(schema[..i], r', r);
  }

  lemma LaterSectionsIgnoreCommentEdit(schema: seq<Section>, r: Responses, i: nat, value: string)
    requires SlotsDistinct(schema)
    requires i < |schema|
    ensures SectionsText(schema[i + 1..], r[CommentKey(schema[i].title) := value]) == SectionsText(schema[i + 1..], r)
  {
    var key := CommentKey(schema[i].title);
    var r' := r[key := value];
    forall k | IsSchemaKey(schema[i + 1..], k) ensures AnswerOf(r', k) == AnswerOf(r, k) {
      LaterKeyUnchanged(schema, i, k, key);
    }
    SectionsTextAgree(schema[i + 1..], r', r);
  }

  /** In a schema whose slots do not alias, what a section's comment field
      writes is what the export shows in that section's comment block, and
      every other part of the spouse's sections is exactly as before. */
  lemma CommentFieldIsExported(schema: seq<Section>, store: Store, spouse: string, i: nat, value: string)
    requires SlotsDistinct(schema)
    requires i < |schema|
    ensures var r := ResponsesOf(store, spouse);
      var r' := Update(store, spouse, CommentKey(schema[i].title), value)[spouse];
      SectionsText(schema, r')
         == SectionsText(schema[..i], r)
          + SectionHeading(schema[i].title)
          + QuestionsText(schema[i].questions, r)
          + CommentLine(value)
          + SectionsText(schema[i + 1..], r)
  {
    var key := CommentKey(schema[i].title);
    var r := ResponsesOf(store, spouse);
    var r' := Update(store, spouse, key, value)[spouse];
    assert r' == r[key := value];
    SectionSlot(schema, r', i);
    CommentEditKeepsOtherSlots(schema, r, i, value);
  }

  /** For the questionnaire's own seven sections, typing into section `i`'s
      comment field changes that section's comment block in the export and
      nothing else in the spouse's sections. */
  lemma AlimonyCommentFieldIsExported(store: Store, spouse: string, i: nat, value: string)
    requires i < |AlimonySections|
    ensures var schema := AlimonySections;
      var r := ResponsesOf(store, spouse);
      var r' := Update(store, spouse, CommentKey(schema[i].title), value)[spouse];
      SectionsText(schema, r')
         == SectionsText(schema[..i], r)
          + SectionHeading(schema[i].title)
          + QuestionsText(schema[i].questions, r)
          + CommentLine(value)
          + SectionsText(schema[i + 1..], r)
  {
    AlimonySlotsDistinct();
    CommentFieldIsExported(AlimonySections, store, spouse, i, value);
  }

  /** A key of a section after section `i` is not section `i`'s comment key. */
  lemma LaterKeyUnchanged(schema: seq<Section>, i: nat, k: string, key: string)
    requires SlotsDistinct(schema) && i < |schema| && key == CommentKey(schema[i].title)
    requires IsSchemaKey(schema[i + 1..], k)
    ensures k != key
  {
    SchemaKeyOfSuffix(schema, i + 1, k);
    var tail := schema[i + 1..];
    if IsCommentKey(tail, k) {
      var i' :| 0 <= i' < |tail| && CommentKey(tail[i'].title) == k;
      assert k == CommentKey(schema[i + 1 + i'].title);
      assert schema[i + 1 + i'].title != schema[i].title;
    } else {
      OtherKeyUnchanged(schema, i, k, key);
    }
  }

  /** A schema key that is a question, or the comment key of a section before
      section `i`, is not section `i`'s comment key. */
  lemma OtherKeyUnchanged(schema: seq<Section>, i: nat, k: string, key: string)
    requires SlotsDistinct(schema) && i < |schema| && key == CommentKey(schema[i].title)
    requires IsQuestionKey(schema, k) || IsCommentKey(schema[..i], k)
    ensures k != key
  {
    if IsQuestionKey(schema, k) {
      var a, b :| 0 <= a < |schema| && 0 <= b < |schema[a].questions| && schema[a].questions[b] == k;
      assert schema[a].questions[b] != CommentKey(schema[i].title);
    } else {
      var head := schema[..i];
      var i' :| 0 <= i' < |head| && CommentKey(head[i'].title) == k;
      assert schema[i'].title != schema[i].title;
    }
  }

  // ---------------------------------------------------------------------------
  // The unanswered form

  /** The questions of a section with every answer left blank. */
  function BlankQuestions(questions: seq<string>): string
  {
    if questions == [] then "" else "\n" + questions[0] + "\n\n" + BlankQuestions(questions[1..])
  }

  /** The sections of a schema with every answer and comment left blank: a
      text determined by the schema alone. */
  function BlankSections(schema: seq<Section>): string
  {
    if schema == [] then ""
    else "\n" + schema[0].title + "\n" + BlankQuestions(schema[0].questions)
         + "\nAdditional Comments:\n\n" + BlankSections(schema[1..])
  }

  lemma {:induction false} UnansweredQuestionsText(questions: seq<string>, r: Responses)
    requires forall j :: 0 <= j < |questions| ==> AnswerOf(r, questions[j]) == ""
    ensures QuestionsText(questions, r) == BlankQuestions(questions)
  {
    if questions != [] {
      UnansweredQuestionsText(questions[1..], r);
      var q := questions[0];
      assert QuestionLine(q, "") == "\n" + q + "\n\n";
    }
  }

  lemma {:induction false} UnansweredSectionsText(schema: seq<Section>, r: Responses)
    requires forall key :: IsSchemaKey(schema, key) ==> AnswerOf(r, key) == ""
    ensures SectionsText(schema, r) == BlankSections(schema)
  {
    if schema != [] {
      var s := schema[0];
      forall j | 0 <= j < |s.questions| ensures AnswerOf(r, s.questions[j]) == "" {
        assert IsQuestionKey(schema, schema[0].questions[j]);
      }
      UnansweredQuestionsText(s.questions, r);
      assert IsCommentKey(schema, CommentKey(s.title));
      assert CommentLine("") == "\nAdditional Comments:\n\n";
      forall key | IsSchemaKey(schema[1..], key) ensures AnswerOf(r, key) == "" {
        SchemaKeyOfSuffix(schema, 1, key);
      }
      UnansweredSectionsText(schema[1..], r);
    }
  }

  /** A store with no answer under any schema key, for either spouse, exports
      the blank form: two banners, each followed by the schema's blank sections. */
  lemma UnansweredStoreText(schema: seq<Section>, store: Store)
    requires WellFormed(store)
    requires forall key :: IsSchemaKey(schema, key) ==> AnswerOf(store[Spouse1], key) == "" && AnswerOf(store[Spouse2], key) == ""
    ensures TextOf(schema, store)
         == Banner("Spouse 1") + BlankSections(schema) + Banner("Spouse 2") + BlankSections(schema)
  {
    TextOfShape(schema, store);
    UnansweredSectionsText(schema, store[Spouse1]);
    UnansweredSectionsText(schema, store[Spouse2]);
  }

  /** The store a session starts with exports the blank form. */
  lemma InitialStoreText(schema: seq<Section>)
    ensures TextOf(schema, InitialStore())
         == Banner("Spouse 1") + BlankSections(schema) + Banner("Spouse 2") + BlankSections(schema)
  {
    UnansweredStoreText(schema, InitialStore());
  }

  // ---------------------------------------------------------------------------
  // A worked example

  /** One section "Test" with one question "Q1?"; spouse 1 answered "yes",
      spouse 2 nothing: each spouse's block holds the banner, the title, the
      question with the spouse's answer (blank for spouse 2) and an empty
      comment block. */
  lemma ExampleExport()
    ensures TextOf([Section("Test", ["Q1?"])], map[Spouse1 := map["Q1?" := "yes"], Spouse2 := map[]])
         == Banner("Spouse 1") + SectionHeading("Test") + QuestionLine("Q1?", "yes") + CommentLine("")
          + Banner("Spouse 2") + SectionHeading("Test") + QuestionLine("Q1?", "") + CommentLine("")
  {
    var schema := [Section("Test", ["Q1?"])];
    var store := map[Spouse1 := map["Q1?" := "yes"], Spouse2 := map[]];
    TextOfShape(schema, store);
    assert CommentKey("Test") != "Q1?" by {
      assert |CommentKey("Test")| == 13;
    }
    ExampleSections(store[Spouse1], "yes");
    ExampleSections(store[Spouse2], "");
    FlattenBlocks(Banner("Spouse 1"), SectionHeading("Test"), QuestionLine("Q1?", "yes"), CommentLine(""),
                  Banner("Spouse 2"), SectionHeading("Test"), QuestionLine("Q1?", ""), CommentLine(""));
  }

  lemma FlattenBlocks(b1: string, h1: string, l1: string, c1: string, b2: string, h2: string, l2: string, c2: string)
    ensures b1 + (h1 + l1 + c1) + b2 + (h2 + l2 + c2) == b1 + h1 + l1 + c1 + b2 + h2 + l2 + c2
  {
    Assoc(b1, h1 + l1 + c1, b2);
    Assoc(b1 + (h1 + l1 + c1), b2, h2 + l2 + c2);
    Assoc(b1, h1 + l1, c1);
    Assoc(b1, h1, l1);
    Assoc(b1 + h1 + l1 + c1 + b2, h2 + l2, c2);
    Assoc(b1 + h1 + l1 + c1 + b2, h2, l2);
  }

  lemma ExampleSections(r: Responses, answer: string)
    requires AnswerOf(r, "Q1?") == answer && AnswerOf(r, CommentKey("Test")) == ""
    ensures SectionsText([Section("Test", ["Q1?"])], r)
         == SectionHeading("Test") + QuestionLine("Q1?", answer) + CommentLine("")
  {
    assert QuestionsText(["Q1?"], r) == QuestionLine("Q1?", answer) + "";
    assert [Section("Test", ["Q1?"])][1..] == [];
  }
}
