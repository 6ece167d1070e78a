/** The home-page FAQ section (components/sections/faq.tsx): four fixed
    entries rendered through an `Accordion.Accordion` of four items. */
module Faq {
  import opened JsText
  import Accordion

  const Keys: seq<string> := ["q1", "q2", "q3", "q4"]

  /** The message keys (under `faq.items`) of entry `key`'s question and answer. */
  function QuestionKey(key: string): string {
    key + ".question"
  }

  function AnswerKey(key: string): string {
    key + ".answer"
  }

  datatype Entry = Entry(question: string, answer: Option<string>)

  /** What entry `i` renders: its question always, its answer only while it
      is the open one. */
  function EntryView(t: string -> string, openIndex: Option<nat>, i: nat): (r: Entry)
    requires i < |Keys|
    ensures r.question == t(Keys[i] + ".question")
    ensures r.answer.Some? <==> openIndex == Some(i)
    ensures r.answer.Some? ==> r.answer.value == t(Keys[i] + ".answer")
  {
    Entry(t(QuestionKey(Keys[i])), if openIndex == Some(i) then Some(t(AnswerKey(Keys[i]))) else None)
  }

  /** The eight message keys are pairwise distinct, so each entry shows its
      own texts. */
  lemma {:induction false} MessageKeysDistinct(i: nat, j: nat)
    requires i < |Keys| && j < |Keys|
    ensures QuestionKey(Keys[i]) != AnswerKey(Keys[j])
    ensures i != j ==> QuestionKey(Keys[i]) != QuestionKey(Keys[j]) && AnswerKey(Keys[i]) != AnswerKey(Keys[j])
  {
    assert QuestionKey(Keys[i])[3] == 'q' && AnswerKey(Keys[j])[3] == 'a';
    if i != j {
      assert QuestionKey(Keys[i])[1] == Keys[i][1] && QuestionKey(Keys[j])[1] == Keys[j][1];
      assert AnswerKey(Keys[i])[1] == Keys[i][1] && AnswerKey(Keys[j])[1] == Keys[j][1];
    }
  }

  /** The section's accordion: one item per key, the first open. */
  method NewSection() returns (a: Accordion.Accordion)
    ensures fresh(a) && a.Valid()
    ensures a.count == |Keys| && a.openIndex == Some(0)
  {
    a := new Accordion.Accordion(|Keys|);
  }

  /** However the entries have been clicked, at most one answer is visible. */
  lemma {:induction false} OneAnswerVisible(t: string -> string, openIndex: Option<nat>, i: nat, j: nat)
    requires i < |Keys| && j < |Keys|
    requires EntryView(t, openIndex, i).answer.Some? && EntryView(t, openIndex, j).answer.Some?
    ensures i == j
  {
  }
}
