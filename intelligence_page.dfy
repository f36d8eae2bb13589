/**
 * The conversation-intelligence page: one question at a time about past
 * conversations, its answer or its error, and the example questions.
 */
module IntelligencePage {
  import opened Base
  import opened Text

  const QUERY_FAILED := "Failed to query conversations. Please try again."

  /** The example questions offered before the first question. */
  const EXAMPLES: seq<string> := [
    "What topics have I discussed recently?",
    "Summarize my conversations from last week",
    "What did I learn about [specific topic]?",
    "Find conversations where I discussed [keyword]"
  ]

  /** Every example question can be asked as it stands. */
  lemma ExamplesAskable(k: nat)
    requires k < |EXAMPLES|
    ensures !IsJsBlank(EXAMPLES[k])
  {
    var e := EXAMPLES[k];
    assert e[|e| - 1] in {'?', 'k', ']'};
  }

  class IntelligenceState {
    var query: string
    var response: string
    var isLoading: bool
    var hasAsked: bool
    var error: string

    /** While a question is in flight the answer area is blank and the
        question has been asked; an answer and an error never show
        together. */
    ghost predicate Valid()
      reads this
    {
      && (isLoading ==> hasAsked && response == "" && error == "")
      && (error == "" || response == "")
    }

    constructor ()
      ensures Valid()
      ensures query == "" && response == "" && !isLoading && !hasAsked && error == ""
    {
      query, response, isLoading, hasAsked, error := "", "", false, false, "";
    }

    /** Typing in the question box, or clicking an example. */
    method SetQuery(value: string)
      requires Valid()
      modifies this
      ensures Valid()
      ensures query == value
      ensures response == old(response) && error == old(error) && isLoading == old(isLoading) && hasAsked == old(hasAsked)
    {
      query := value;
    }

    /** The start of `handleQuery`: nothing for a blank question or while
        one is in flight; otherwise the question goes out, the answer area
        is cleared and the loading state shown. */
    method StartQuery() returns (asked: Option<string>)
      requires Valid()
      modifies this
      ensures Valid()
      ensures asked.Some? <==> !IsJsBlank(old(query)) && !old(isLoading)
      ensures asked.None? ==> unchanged(this)
      ensures asked.Some? ==> asked.value == query && isLoading && hasAsked && response == "" && error == ""
      ensures query == old(query)
    {
      if IsJsBlank(query) || isLoading {
        return None;
      }
      isLoading := true;
      hasAsked := true;
      response := "";
      error := "";
      asked := Some(query);
    }

    /** The end of `handleQuery`: the answer on success, the fixed error
        text (with no answer) on failure; loading ends either way and the
        question is left as it was. */
    method FinishQuery(result: Remote<string>)
      requires Valid() && isLoading
      modifies this
      ensures Valid()
      ensures !isLoading && hasAsked && query == old(query)
      ensures result.Ok? ==> response == result.value && error == ""
      ensures result.Err? ==> response == "" && error == QUERY_FAILED
    {
      if result.Ok? {
        response := result.value;
      } else {
        error := QUERY_FAILED;
      }
      isLoading := false;
    }

    /** `handleQuery` from start to finish. */
    method HandleQuery(result: Remote<string>) returns (asked: Option<string>)
      requires Valid()
      modifies this
      ensures Valid()
      ensures asked.Some? <==> !IsJsBlank(old(query)) && !old(isLoading)
      ensures asked.None? ==> unchanged(this)
      ensures asked.Some? ==> asked.value == old(query) && !isLoading && hasAsked
      ensures asked.Some? && result.Ok? ==> response == result.value && error == ""
      ensures asked.Some? && result.Err? ==> response == "" && error == QUERY_FAILED
      ensures query == old(query)
    {
      asked := StartQuery();
      if asked.Some? {
        FinishQuery(result);
      }
    }
  }

  /** Clicking an example and sending it always asks that example, unless
      a question is already in flight. */
  method AskExample(page: IntelligenceState, k: nat, result: Remote<string>) returns (asked: Option<string>)
    requires page.Valid() && !page.isLoading && k < |EXAMPLES|
    modifies page
    ensures page.Valid()
    ensures asked == Some(EXAMPLES[k]) && page.query == EXAMPLES[k] && !page.isLoading
  {
    page.SetQuery(EXAMPLES[k]);
    ExamplesAskable(k);
    asked := page.HandleQuery(result);
  }
}
