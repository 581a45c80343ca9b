/** The search box: one `query` field, a submit that hands the query to the
    page, and a clear button shown only while there is something to clear. */
module SearchBox {

  class SearchBox {
    var query: string

    constructor ()
      ensures query == ""
    {
      query := "";
    }

    /** The input's `onChange`: the query becomes the typed value. */
    method Type(value: string)
      modifies this
      ensures query == value
    {
      query := value;
    }

    /** `handleSubmit`: `onSearch` receives the query as typed; nothing changes. */
    method Submit() returns (searched: string)
      ensures searched == query
    {
      searched := query;
    }

    /** `handleClear`: the query becomes empty and `onSearch` receives "". */
    method Clear() returns (searched: string)
      modifies this
      ensures query == "" && searched == ""
    {
      query := "";
      searched := "";
    }

    /** The "×" button is rendered exactly when the query is non-empty. */
    function ClearShown(): (shown: bool)
      reads this
      ensures shown <==> |query| > 0
    {
      query != ""
    }
  }

  /** After a clear the button disappears, and a submit then searches for "". */
  method ClearThenSubmit(box: SearchBox) returns (searched: string)
    modifies box
    ensures !box.ClearShown() && searched == ""
  {
    var _ := box.Clear();
    searched := box.Submit();
  }
}
