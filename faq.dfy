/** The FAQ page (src/pages/FAQ.jsx): the accordion's set of open questions and
    the list narrowed by topic and search text. The questions themselves are static
    page content and come in as a parameter. */
module Faq {
  import opened Seqs
  import Text

  datatype FaqEntry = FaqEntry(id: int, category: string, question: string, answer: string)

  predicate MatchesCategory(faq: FaqEntry, activeCategory: string)
  {
    activeCategory == "all" || faq.category == activeCategory
  }

  /** The lowercased question or answer contains the lowercased query. */
  predicate MatchesSearch(faq: FaqEntry, searchQuery: string)
  {
    var q := Text.ToLower(searchQuery);
    Text.Contains(Text.ToLower(faq.question), q) || Text.Contains(Text.ToLower(faq.answer), q)
  }

  function KeepTest(activeCategory: string, searchQuery: string): FaqEntry -> bool
  {
    (faq: FaqEntry) => MatchesCategory(faq, activeCategory) && MatchesSearch(faq, searchQuery)
  }

  /** `filteredFaqs`. */
  function FilteredFaqs(faqs: seq<FaqEntry>, activeCategory: string, searchQuery: string): seq<FaqEntry>
  {
    Filter(faqs, KeepTest(activeCategory, searchQuery))
  }

  /** The list keeps the page's order and holds exactly the questions that match
      both the topic and the search text. */
  lemma FilteredFaqsSpec(faqs: seq<FaqEntry>, activeCategory: string, searchQuery: string)
    ensures IsSubseq(FilteredFaqs(faqs, activeCategory, searchQuery), faqs)
    ensures forall f :: f in FilteredFaqs(faqs, activeCategory, searchQuery) <==>
              f in faqs && MatchesCategory(f, activeCategory) && MatchesSearch(f, searchQuery)
  {
    FilterIsSubseq(faqs, KeepTest(activeCategory, searchQuery));
  }

  /** The search has no empty-query guard, yet the empty query matches every
      question, so topic `all` with no search text lists every question. */
  lemma EmptySearchKeepsAll(faqs: seq<FaqEntry>, activeCategory: string)
    ensures forall f :: MatchesSearch(f, "")
    ensures FilteredFaqs(faqs, "all", "") == faqs
    ensures FilteredFaqs(faqs, activeCategory, "") == Filter(faqs, (f: FaqEntry) => MatchesCategory(f, activeCategory))
  {
    forall f: FaqEntry ensures MatchesSearch(f, "") {
      assert Text.ToLower("") == "";
      assert "" <= Text.ToLower(f.question);
    }
    FilterAll(faqs, KeepTest("all", ""));
    FilterExt(faqs, KeepTest(activeCategory, ""), (f: FaqEntry) => MatchesCategory(f, activeCategory));
  }

  /** The accordion and filter state of the page. */
  class FaqPage {
    var activeCategory: string
    var openItems: seq<int>
    var searchQuery: string

    ghost predicate Valid()
      reads this
    {
      Distinct(openItems)
    }

    constructor ()
      ensures Valid() && activeCategory == "all" && openItems == [] && searchQuery == ""
    {
      activeCategory := "all";
      openItems := [];
      searchQuery := "";
    }

    /** `toggleItem`: open a closed question (appending its id) or close an open one. */
    method ToggleItem(id: int)
      requires Valid()
      modifies this
      ensures Valid()
      ensures openItems == Toggle(old(openItems), id)
      ensures id in openItems <==> id !in old(openItems)
      ensures forall other :: other != id ==> (other in openItems <==> other in old(openItems))
      ensures |openItems| == if id in old(openItems) then |old(openItems)| - 1 else |old(openItems)| + 1
      ensures activeCategory == old(activeCategory) && searchQuery == old(searchQuery)
    {
      ToggleDistinct(openItems, id);
      openItems := Toggle(openItems, id);
    }

    /** The questions the page lists. */
    function Visible(faqs: seq<FaqEntry>): seq<FaqEntry>
      reads this
    {
      FilteredFaqs(faqs, activeCategory, searchQuery)
    }
  }

  /** Opening and closing the same question restores the open set. */
  lemma ToggleItemTwice(openItems: seq<int>, id: int)
    requires Distinct(openItems)
    ensures forall x :: x in Toggle(Toggle(openItems, id), id) <==> x in openItems
    ensures id !in openItems ==> Toggle(Toggle(openItems, id), id) == openItems
    ensures Distinct(Toggle(Toggle(openItems, id), id))
  {
    ToggleTwice(openItems, id);
    ToggleDistinct(openItems, id);
    ToggleDistinct(Toggle(openItems, id), id);
  }
}
