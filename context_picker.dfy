/**
 * The list under the prompt box of src/components/ContextPicker.tsx: at
 * most ten candidate files for the current query, a highlighted index that
 * Up / Down (or Ctrl+P / Ctrl+N) move round the list, Return to pick the
 * highlighted file and Escape to cancel. The fuzzy finder is a parameter.
 */
module ContextPickerList {
  import opened MathHelpers
  import opened Strings
  import opened Ink

  const DefaultMaxContextPickerFiles := 10

  /** A JavaScript number as the index can hold it: an integer, or NaN
      after a remainder by zero. */
  datatype Index = Num(i: int) | NaN

  /** JavaScript's `a % n` on integers: the remainder takes the sign of
      `a`, and a remainder by zero is NaN. Between 0 and `2n` it subtracts
      `n` once if it can. */
  function JsRem(a: int, n: int): (r: Index)
    ensures n == 0 <==> r == NaN
    ensures 0 < n && 0 <= a < 2 * n ==> r == Num(if a < n then a else a - n)
    ensures 0 < n && -n < a < 0 ==> r == Num(a)
  {
    if n == 0 then NaN
    else if a >= 0 then
      if 0 < n && a < 2 * n then ModBelowTwice(a, n); Num(a % n)
      else Num(a % n)
    else Num(-((-a) % n))
  }

  /** Euclidean remainder of a value in `[0, 2n)`. */
  lemma {:induction false} ModBelowTwice(a: int, n: int)
    requires 0 < n && 0 <= a < 2 * n
    ensures a % n == if a < n then a else a - n
  {
    var q, r := a / n, a % n;
    assert a == q * n + r && 0 <= r < n;
  }

  /** The list shown for a query: with an empty or blank query the first
      ten files in their own order, otherwise the first ten hits of the
      search in its order. */
  function FilteredFiles(files: seq<string>, query: string, search: string -> seq<string>): (r: seq<string>)
    ensures JsTrim(query) == [] ==> |r| == Min(DefaultMaxContextPickerFiles, |files|) && r == files[..|r|]
    ensures JsTrim(query) != [] ==>
      |r| == Min(DefaultMaxContextPickerFiles, |search(query)|) && r == search(query)[..|r|]
  {
    if query == [] || JsTrim(query) == [] then
      files[..Min(DefaultMaxContextPickerFiles, |files|)]
    else
      search(query)[..Min(DefaultMaxContextPickerFiles, |search(query)|)]
  }

  /** Up / Ctrl+P: `(prev - 1 + n) % n`. On a non-empty list it steps back
      one place and wraps from the top to the bottom; on an empty one it is
      NaN. */
  function StepUp(prev: Index, n: nat): (r: Index)
    ensures n == 0 ==> r == NaN
    ensures n > 0 && prev.Num? && 0 <= prev.i < n ==>
      r == Num(if prev.i == 0 then n - 1 else prev.i - 1)
  {
    match prev
    case NaN => NaN
    case Num(i) => JsRem(i - 1 + n, n)
  }

  /** Down / Ctrl+N: `(prev + 1) % n`. On a non-empty list it steps forward
      one place and wraps from the bottom to the top. */
  function StepDown(prev: Index, n: nat): (r: Index)
    ensures n == 0 ==> r == NaN
    ensures n > 0 && prev.Num? && 0 <= prev.i < n ==>
      r == Num(if prev.i == n - 1 then 0 else prev.i + 1)
  {
    match prev
    case NaN => NaN
    case Num(i) => JsRem(i + 1, n)
  }

  /** On a non-empty list Up and Down undo each other, and `n` steps either
      way come back to the start. */
  lemma {:induction false} StepsUndo(i: int, n: nat)
    requires 0 <= i < n
    ensures StepDown(StepUp(Num(i), n), n) == Num(i)
    ensures StepUp(StepDown(Num(i), n), n) == Num(i)
  {
    var u := StepUp(Num(i), n);
    assert u.Num? && 0 <= u.i < n;
    var d := StepDown(Num(i), n);
    assert d.Num? && 0 <= d.i < n;
  }

  function StepDownTimes(prev: Index, n: nat, k: nat): Index
  {
    if k == 0 then prev else StepDown(StepDownTimes(prev, n, k - 1), n)
  }

  /** `k <= n` presses of Down from index `i` count forward and wrap once
      past the end. */
  lemma {:induction false} StepDownTimesCounts(i: int, n: nat, k: nat)
    requires 0 <= i < n && k <= n
    ensures StepDownTimes(Num(i), n, k) == Num(if i + k < n then i + k else i + k - n)
  {
    if k > 0 {
      StepDownTimesCounts(i, n, k - 1);
    }
  }

  /** Going round the whole list with Down comes back to the start. */
  lemma {:induction false} StepDownGoesRound(i: int, n: nat)
    requires 0 <= i < n
    ensures StepDownTimes(Num(i), n, n) == Num(i)
  {
    StepDownTimesCounts(i, n, n);
  }

  /** The index fits the list: an integer inside it, the initial 0, or NaN
      on an empty list. */
  predicate IndexFits(index: Index, n: nat) {
    match index
    case NaN => n == 0
    case Num(i) => i == 0 || 0 <= i < n
  }

  /** What a key press asks of the component's owner. */
  datatype Outcome = Nothing | Selected(file: string) | Cancelled

  /** The first `case` of the handler's `switch (true)` whose label holds. */
  datatype Action = Up | Down | Escape | Return | Ignore

  function Dispatch(input: string, key: Key): Action {
    if key.upArrow || (key.ctrl && input == "p") then Up
    else if key.downArrow || (key.ctrl && input == "n") then Down
    else if key.escape then Escape
    else if key.returnKey then Return
    else Ignore
  }

  /** Return's guard: a non-empty list and a truthy entry at the index,
      that is, a real, non-empty file name. */
  function Pick(files: seq<string>, index: Index): (r: Outcome)
    ensures r.Selected? <==> index.Num? && 0 <= index.i < |files| && files[index.i] != []
    ensures r.Selected? ==> r.file in files && r.file != []
    ensures r == Nothing || r.Selected?
  {
    if |files| > 0 && index.Num? && 0 <= index.i < |files| && files[index.i] != [] then
      Selected(files[index.i])
    else Nothing
  }

  /** One row of the list: the file and whether it is the highlighted one,
      shown with a `> ` marker. */
  datatype Row = Row(file: string, current: bool)

  /** The rows rendered, or none at all for an empty list. */
  function Rows(files: seq<string>, index: Index): (r: seq<Row>)
    ensures |r| == |files|
    ensures forall k | 0 <= k < |r| :: r[k].file == files[k] && (r[k].current <==> index == Num(k))
  {
    seq(|files|, k requires 0 <= k < |files| => Row(files[k], index == Num(k)))
  }

  /** When the index lies inside the list, exactly one row is highlighted. */
  lemma {:induction false} OneRowHighlighted(files: seq<string>, i: int)
    requires 0 <= i < |files|
    ensures var r := Rows(files, Num(i));
      (set k | 0 <= k < |r| && r[k].current) == {i}
  {
  }

  /** The component: its props (the fixed candidate files, the query and the
      fuzzy finder built over the files) and its one state cell. */
  class ContextPicker {
    const contextPickerFiles: seq<string>
    const search: string -> seq<string>
    var contextPickerQuery: string
    var currentContextPickerFileIndex: Index

    function FilteredContextPickerFiles(): seq<string>
      reads this
    {
      FilteredFiles(contextPickerFiles, contextPickerQuery, search)
    }

    predicate Valid()
      reads this
    {
      IndexFits(currentContextPickerFileIndex, |FilteredContextPickerFiles()|)
    }

    /** Mounting: the index starts at 0. */
    constructor(files: seq<string>, query: string, fuzzySearch: string -> seq<string>)
      ensures Valid()
      ensures contextPickerFiles == files && contextPickerQuery == query && search == fuzzySearch
      ensures currentContextPickerFileIndex == Num(0)
    {
      contextPickerFiles := files;
      search := fuzzySearch;
      contextPickerQuery := query;
      currentContextPickerFileIndex := Num(0);
    }

    /** A render with a new query: a different query makes a new filtered
        list, and the effect on that list puts the index back to 0. */
    method SetQuery(query: string)
      requires Valid()
      modifies this
      ensures Valid() && contextPickerQuery == query
      ensures currentContextPickerFileIndex
              == if query != old(contextPickerQuery) then Num(0) else old(currentContextPickerFileIndex)
    {
      if query != contextPickerQuery {
        contextPickerQuery := query;
        currentContextPickerFileIndex := Num(0);
      }
    }

    /** The key handler. Up and Down move the index round the list, Escape
        cancels, Return picks the highlighted file when there is one. */
    method HandleInput(input: string, key: Key) returns (outcome: Outcome)
      requires Valid()
      modifies this
      ensures Valid() && contextPickerQuery == old(contextPickerQuery)
      ensures var n, prev := |FilteredContextPickerFiles()|, old(currentContextPickerFileIndex);
        match Dispatch(input, key)
        case Up => currentContextPickerFileIndex == StepUp(prev, n) && outcome == Nothing
        case Down => currentContextPickerFileIndex == StepDown(prev, n) && outcome == Nothing
        case Escape => currentContextPickerFileIndex == prev && outcome == Cancelled
        case Return => currentContextPickerFileIndex == prev && outcome == Pick(FilteredContextPickerFiles(), prev)
        case Ignore => currentContextPickerFileIndex == prev && outcome == Nothing
    {
      var filteredContextPickerFiles := FilteredContextPickerFiles();
      var n := |filteredContextPickerFiles|;
      outcome := Nothing;
      match Dispatch(input, key) {
      case Up =>
        currentContextPickerFileIndex := StepUp(currentContextPickerFileIndex, n);
      case Down =>
        currentContextPickerFileIndex := StepDown(currentContextPickerFileIndex, n);
      case Escape =>
        outcome := Cancelled;
      case Return =>
        outcome := Pick(filteredContextPickerFiles, currentContextPickerFileIndex);
      case Ignore =>
      }
    }

    /** What the component renders: nothing for an empty list, else a row
        per file with the current one highlighted. */
    function View(): (r: seq<Row>)
      reads this
      ensures |r| == |FilteredContextPickerFiles()|
      ensures forall k | 0 <= k < |r| ::
        r[k].file == FilteredContextPickerFiles()[k] && (r[k].current <==> currentContextPickerFileIndex == Num(k))
    {
      Rows(FilteredContextPickerFiles(), currentContextPickerFileIndex)
    }
  }
}
