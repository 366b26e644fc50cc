/** The knowledge base: an ordered dictionary from category key to a category
    with a display name and an ordered list of question/answer pairs.  The
    order of the categories is the dictionary's insertion order, which numbers
    the main menu.  It is loaded once and never changed. */
module KnowledgeBase {
  import opened Wrappers

  datatype QA = QA(question: string, answer: string)

  datatype Category = Category(key: string, name: string, questions: seq<QA>)

  type Kb = seq<Category>

  /** Dictionary keys are unique. */
  predicate DistinctKeys(kb: Kb)
  {
    forall i, j | 0 <= i < j < |kb| :: kb[i].key != kb[j].key
  }

  /** The position of `key` in the dictionary's order, if it is a key. */
  function IndexOf(kb: Kb, key: string): (r: Option<nat>)
    ensures r.Some? ==> r.value < |kb| && kb[r.value].key == key
    ensures r.Some? ==> forall j | 0 <= j < r.value :: kb[j].key != key
    ensures r.None? ==> forall j | 0 <= j < |kb| :: kb[j].key != key
  {
    if kb == [] then None
    else if kb[0].key == key then Some(0)
    else match IndexOf(kb[1..], key)
      case None => None
      case Some(i) => Some(i + 1)
  }

  predicate HasKey(kb: Kb, key: string)
  {
    IndexOf(kb, key).Some?
  }

  /** `knowledge_base[key]` */
  function Lookup(kb: Kb, key: string): (c: Category)
    requires HasKey(kb, key)
    ensures c.key == key && c in kb
  {
    kb[IndexOf(kb, key).value]
  }

  /** `list(knowledge_base.keys())[i]` looks up to the category at position i. */
  lemma LookupAt(kb: Kb, i: nat)
    requires DistinctKeys(kb) && i < |kb|
    ensures HasKey(kb, kb[i].key) && Lookup(kb, kb[i].key) == kb[i]
  {
  }
}
