/** The question schema of the alimony questionnaire: an ordered list of
    sections, each a title and an ordered list of question texts.  Question
    texts are used directly as answer keys; a section's free-text remark is
    stored under a key derived from the section title. */
module Schema {

  datatype Section = Section(title: string, questions: seq<string>)

  /** The suffix that turns a section title into its comment key. */
  const CommentSuffix: string := "_comments"

  /** The key under which a respondent's "Additional Comments" for the
      section titled `title` is stored: the title followed by "_comments". */
  function CommentKey(title: string): (k: string)
    ensures |k| == |title| + |CommentSuffix|
    ensures k[..|title|] == title && k[|title|..] == CommentSuffix
  {
    title + CommentSuffix
  }

  /** Distinct titles give distinct comment keys, so two sections never share
      a comment slot. */
  lemma CommentKeyInjective(t1: string, t2: string)
    requires CommentKey(t1) == CommentKey(t2)
    ensures t1 == t2
  {
    var k := CommentKey(t1);
    assert |t1| == |t2|;
    assert t1 == k[..|t1|] == t2;
  }

  /** `key` is a question of some section of the schema. */
  ghost predicate IsQuestionKey(schema: seq<Section>, key: string)
  {
    exists i, j :: 0 <= i < |schema| && 0 <= j < |schema[i].questions| && schema[i].questions[j] == key
  }

  /** `key` is the comment key of some section of the schema. */
  ghost predicate IsCommentKey(schema: seq<Section>, key: string)
  {
    exists i :: 0 <= i < |schema| && CommentKey(schema[i].title) == key
  }

  /** The keys the exporter and the form look up: questions and comment keys. */
  ghost predicate IsSchemaKey(schema: seq<Section>, key: string)
  {
    IsQuestionKey(schema, key) || IsCommentKey(schema, key)
  }

  /** No two sections share a question text. */
  ghost predicate QuestionsDisjoint(a: Section, b: Section)
  {
    forall j, j' :: 0 <= j < |a.questions| && 0 <= j' < |b.questions| ==> a.questions[j] != b.questions[j']
  }

  /** No question text occurs twice within a section. */
  ghost predicate QuestionsUnique(section: Section)
  {
    forall j, j' :: 0 <= j < j' < |section.questions| ==> section.questions[j] != section.questions[j']
  }

  /** Question `(i, j)` and question `(i', j')` of the schema have different
      texts whenever they are different questions. */
  ghost predicate QuestionsDistinct(schema: seq<Section>)
  {
    forall i, j, i', j' ::
      0 <= i < |schema| && 0 <= j < |schema[i].questions| &&
      0 <= i' < |schema| && 0 <= j' < |schema[i'].questions| &&
      (i != i' || j != j') ==>
        schema[i].questions[j] != schema[i'].questions[j']
  }

  /** A schema in which every answer key names exactly one slot: section
      titles are pairwise distinct (so comment keys are too), no two questions
      share a text, and no question text is also a comment key. */
  ghost predicate SlotsDistinct(schema: seq<Section>)
  {
    && (forall i, i' :: 0 <= i < i' < |schema| ==> schema[i].title != schema[i'].title)
    && QuestionsDistinct(schema)
    && (forall i, j, i' :: 0 <= i < |schema| && 0 <= j < |schema[i].questions| && 0 <= i' < |schema| ==>
          schema[i].questions[j] != CommentKey(schema[i'].title))
  }

  /** Questions are distinct across a schema when each section's questions
      are unique and no two sections share one. */
  lemma QuestionsDistinctBySection(schema: seq<Section>)
    requires forall i :: 0 <= i < |schema| ==> QuestionsUnique(schema[i])
    requires forall i, i' :: 0 <= i < i' < |schema| ==> QuestionsDisjoint(schema[i], schema[i'])
    ensures QuestionsDistinct(schema)
  {
    forall i, j, i', j' |
      0 <= i < |schema| && 0 <= j < |schema[i].questions| &&
      0 <= i' < |schema| && 0 <= j' < |schema[i'].questions| &&
      (i != i' || j != j')
      ensures schema[i].questions[j] != schema[i'].questions[j']
    {
      if i < i' {
        assert QuestionsDisjoint(schema[i], schema[i']);
      } else if i' < i {
        assert QuestionsDisjoint(schema[i'], schema[i]);
      } else if j < j' {
        assert QuestionsUnique(schema[i]);
      } else {
        assert QuestionsUnique(schema[i]);
      }
    }
  }
}
