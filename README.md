# Alimony questionnaire: answer store and plain-text export

This project is a Dafny model of the logic in the alimony questionnaire's
single component (`src/App.js`). The component shows a fixed schema of seven
sections, each a title and a list of questions, to two respondents, "spouse1"
and "spouse2". It keeps their answers in a store and exports them as plain
text.

- **Schema** (`schema.dfy`). `Section(title, questions)` is one section.
  `CommentKey(title)` is the key `title + "_comments"` under which a section's
  "Additional Comments" are stored. `SlotsDistinct` says that section titles
  are pairwise distinct, that no two questions share a text, and that no
  question text is also a comment key, so every answer key names one slot.
- **Fixed schema** (`alimony_schema.dfy`). The seven sections of the
  questionnaire, as the constant `AlimonySections`. It is proved to satisfy
  `SlotsDistinct`.
- **Answer store** (`answer_store.dfy`). A store is a
  `map<string, map<string, string>>` from spouse key to response map. It starts
  as both spouses with empty maps (`InitialStore`). The change handler is
  `Update`: it builds a new store with exactly one entry replaced. `AnswerOf`
  is the `value || ""` read that gives `""` for a missing key.
- **Exporter** (`text_export.dfy`). `TextOf` is the specification: for each
  spouse in order, a banner and then every section in schema order. A section
  is its title, each question followed by the spouse's answer, and an
  "Additional Comments" block. `GenerateText` is the exporter itself. Like the
  source, it appends to one result string in nested loops over spouses,
  sections and questions. It is proved to return exactly `TextOf`.
- **Export properties** (`export_properties.dfy`). These lemmas cover the
  output's shape and where each answer sits in it. They show that only schema
  keys are read, so writing any other key leaves the export unchanged. They
  show that the initial store exports a blank form that depends on the schema
  alone. They also show that what a question or comment field writes is what
  the export shows for it, and that nothing else in the export changes. A
  worked example closes the file.

The exporter takes the schema as a parameter. The application always passes
its fixed `sections` constant, which is `AlimonySchema.AlimonySections` here.

## Model

| member | source | states |
|---|---|---|
| `Schema.CommentKey` | src/App.js:103 | a section's comment key is its title followed by the 9 characters "_comments", with the title as a prefix |
| `Schema.CommentKeyInjective` | src/App.js:139-140 | sections with different titles get different comment keys, so they never share a comment slot |
| `AlimonySchema.AlimonyQuestionsDistinct` | src/App.js:5-77 | no question text occurs twice in the fixed schema, within a section or across sections |
| `AlimonySchema.AlimonySlotsDistinct` | src/App.js:5-77 | the fixed schema has 7 sections with pairwise distinct titles and pairwise distinct questions, and none of its questions equals any comment key |
| `AnswerStore.InitialStore` | src/App.js:81 | the session starts with exactly the two spouse keys, each holding an empty response map; this store is well formed |
| `AnswerStore.ResponsesOf` | src/App.js:87 | spreading a spouse's answers gives that spouse's map, or the empty map for a spouse not yet in the store |
| `AnswerStore.AnswerOf` | src/App.js:101 | reading a key gives the stored text when the key is present and "" when it is absent (a stored "" also reads as "") |
| `AnswerStore.Update` | src/App.js:83-91 | the new store maps the spouse to a response map whose entry for the key is the value; every other key of that spouse and every other spouse's map are unchanged; no spouse is dropped; well-formedness is preserved |
| `AnswerStore.ReadAfterUpdate` | src/App.js:84-90 | after a change, the written (spouse, key) slot reads back the new value and every other slot reads as before |
| `AnswerStore.UpdateLastWriteWins` | src/App.js:84-90 | writing the same slot twice gives the same store as the last write alone |
| `AnswerStore.UpdatesCommute` | src/App.js:84-90 | changes to two different slots give the same store in either order |
| `TextExport.AppendSections` | src/App.js:98-104 | the per-spouse loop appends exactly that spouse's sections, in schema order, to what was already written |
| `TextExport.GenerateText` | src/App.js:93-106 | the exporter's nested loops return exactly the specified text `TextOf` for a store that holds both spouses |
| `ExportProperties.TextOfShape` | src/App.js:95-97 | the export is the "Spouse 1" banner with spouse 1's sections, followed by the "Spouse 2" banner with spouse 2's sections |
| `ExportProperties.SectionSlot` | src/App.js:98-104 | section i is written after all earlier sections and before all later ones, as its title, its questions, then its comment block holding the comment key's answer |
| `ExportProperties.QuestionSlot` | src/App.js:100-102 | question j of section i is written as the question text followed by the spouse's answer, between the section's earlier and later questions |
| `ExportProperties.SectionsTextAgree` | src/App.js:100-103 | two response maps that agree on every question and comment key of the schema produce the same sections |
| `ExportProperties.TextOfAgree` | src/App.js:95-105 | two stores whose spouses agree on every schema key export the same text, whatever else they hold |
| `ExportProperties.UpdateOffSchemaKeepsText` | src/App.js:100-103 | writing a key that is neither a question nor a comment key of the schema, or writing for a respondent other than the two spouses, leaves the export unchanged |
| `ExportProperties.QuestionFieldIsExported` | src/App.js:130 | after a question field writes a value, the export writes that question followed by exactly that value in the question's slot |
| `ExportProperties.QuestionEditKeepsOtherSlots` | src/App.js:98-104 | when no slots alias, writing a question's key leaves every other section, the section's other questions and its comment unchanged in the export |
| `ExportProperties.QuestionFieldChangesOnlyItsSlot` | src/App.js:129-130 | when no slots alias, after a question field writes a value, the export shows exactly that value under the question and every other part of the spouse's sections is as before the write |
| `ExportProperties.AlimonyQuestionFieldChangesOnlyItsSlot` | src/App.js:130 | for the fixed seven-section schema, a question field's value appears under its own question and nothing else changes |
| `ExportProperties.CommentEditKeepsOtherSlots` | src/App.js:140 | when no slots alias, writing a section's comment key leaves every other section and that section's questions unchanged in the export |
| `ExportProperties.CommentFieldIsExported` | src/App.js:139-140 | when no slots alias, after a comment field writes a value, that section's comment block in the export holds exactly the value and nothing else in the spouse's sections changes |
| `ExportProperties.AlimonyCommentFieldIsExported` | src/App.js:103 | for the fixed seven-section schema, a comment field's value appears in its own section's comment block and nothing else changes |
| `ExportProperties.UnansweredStoreText` | src/App.js:101-103 | a store with no answer under any schema key exports two banners, each followed by the blank form, which depends on the schema alone |
| `ExportProperties.InitialStoreText` | src/App.js:81 | the initial store exports the blank form: every answer and comment slot is empty |
| `ExportProperties.ExampleExport` | src/App.js:93-105 | for one section "Test" with one question "Q1?", where spouse 1 answered "yes", the export is each spouse's banner, the title, the question with that spouse's answer (blank for spouse 2) and an empty comment block |

## Left out

- React rendering, JSX markup, inline styles and the `useState` hook (src/App.js:1-3, 111-155). The store is passed as a value. The form's two `onChange` handlers are modelled only as the `Update` calls they make.
- The `Blob` and `saveAs` file save (src/App.js:107-108). This is I/O through an outside library. `GenerateText` returns the text, and its UTF-8 encoding is not modelled.
- PDF, word-processor and JSON export and import, the table row builder and the base64 wrapper are not part of this model. None of them appears in `src/App.js`.
- The body of the per-spouse `forEach` is the separate method `TextExport.AppendSections`, which `TextExport.GenerateText` calls. The order of appends and the text are the same as in one nested loop.
- `AnswerStore.AnswerOf`: JavaScript property lookup also finds inherited object properties. A question named, say, "constructor" would read an inherited value, not "". The model treats a response map as a plain dictionary. No key of the fixed schema is such a name.
- `TextExport.GenerateText` requires a store that holds both spouse keys. Given a store without one, the exporter at src/App.js:101 and 103 would fail with a TypeError, and the model does not describe that failure. No reachable store lacks a spouse key: `AnswerStore.InitialStore` holds both, and `AnswerStore.Update` never drops one.
- Characters are Dafny `char`s, not UTF-16 code units. Nothing in the model depends on the difference.
- Non-string answer values cannot arise, because every value comes from a text field. The model's store holds strings only.
