/**
 * The agent's one tool: look a policy document up by key in the FAQ table
 * loaded at start-up, with a fixed reply for unknown keys.
 */
module FaqTool {

  /** The reply for a key the table does not hold. */
  const PolicyNotFound: string := "Policy not found. Please check with your Release Manager."

  function LookupFaq(faq: map<string, string>, key: string): (r: string)
    ensures key in faq ==> r == faq[key]
    ensures key !in faq ==> r == PolicyNotFound
  {
    if key in faq then faq[key] else PolicyNotFound
  }

  /**
   * A reply other than the not-found text always comes from the table, and
   * every document that differs from that text reaches the caller unchanged.
   */
  lemma LookupFaqFindsDocuments(faq: map<string, string>, key: string)
    ensures LookupFaq(faq, key) != PolicyNotFound <==> key in faq && faq[key] != PolicyNotFound
    ensures LookupFaq(faq, key) != PolicyNotFound ==> LookupFaq(faq, key) in faq.Values
  {
  }

  /** Adding documents under other keys never changes what a key looks up. */
  lemma LookupFaqUnaffectedByOtherKeys(faq: map<string, string>, key: string, other: string, doc: string)
    requires other != key
    ensures LookupFaq(faq[other := doc], key) == LookupFaq(faq, key)
  {
  }
}
