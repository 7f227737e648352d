/** The list of recognised results shown over the canvas, in display order. */
module Annotations {

  /** One displayed result: the recognised expression and its value. */
  datatype Annotation = Annotation(expr: string, result: string)

  /** A result appended at the end of the list, as rendering a recognised
      result does. */
  function Appended(list: seq<Annotation>, expr: string, result: string): (r: seq<Annotation>)
    ensures |r| == |list| + 1
    ensures r[..|list|] == list
    ensures r[|list|] == Annotation(expr, result)
  {
    list + [Annotation(expr, result)]
  }

  /** The list filtered to the elements whose position differs from `index`,
      as deleting a result does. Any integer may be passed; one that names no
      position removes nothing. */
  function RemoveIndex(list: seq<Annotation>, index: int): (r: seq<Annotation>)
    ensures 0 <= index < |list| ==> r == list[..index] + list[index + 1..]
    ensures !(0 <= index < |list|) ==> r == list
    decreases list
  {
    if list == [] then []
    else (if index == 0 then [] else [list[0]]) + RemoveIndex(list[1..], index - 1)
  }

  /** Deleting keeps every other element, in order: element `k` of the result
      is element `k` of the list before the deleted position and element
      `k + 1` from there on. */
  lemma RemoveIndexKeepsOthers(list: seq<Annotation>, index: int, k: int)
    requires 0 <= index < |list|
    requires 0 <= k < |list| - 1
    ensures |RemoveIndex(list, index)| == |list| - 1
    ensures RemoveIndex(list, index)[k] == if k < index then list[k] else list[k + 1]
  {
  }
}
