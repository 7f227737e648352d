/** The data exchanged with the recognition service and what a reply does
    to the variable bindings. The service call itself is not modelled: a
    request is what would be sent, a reply is what came back. */
module Recognition {
  import opened Wrappers
  import opened Canvas

  /** One recognised item: an expression, its value, and whether it assigns
      the value to the expression as a variable name. */
  datatype Response = Response(expr: string, result: string, assign: bool)

  /** A result waiting to be shown. */
  datatype GeneratedResult = GeneratedResult(expression: string, answer: string)

  /** What the request carries: the encoded canvas and the bindings as they
      were when the request was made. */
  datatype Request = Request(image: Snapshot, variables: map<string, string>)

  /** One result callback per reply item, in reply order, each showing that
      item's expression and value. */
  function Scheduled(items: seq<Response>): (r: seq<GeneratedResult>)
    ensures |r| == |items|
    ensures forall i :: 0 <= i < |items| ==>
              r[i].expression == items[i].expr && r[i].answer == items[i].result
  {
    seq(|items|, i requires 0 <= i < |items| => GeneratedResult(items[i].expr, items[i].result))
  }

  /** The last item of a reply that is an assignment. */
  function LastAssignment(items: seq<Response>): (r: Option<Response>)
    ensures r.None? <==> forall i :: 0 <= i < |items| ==> !items[i].assign
    ensures r.Some? ==> exists i :: 0 <= i < |items| && items[i] == r.value && r.value.assign &&
                          forall j :: i < j < |items| ==> !items[j].assign
    decreases |items|
  {
    if items == [] then None
    else if items[|items| - 1].assign then Some(items[|items| - 1])
    else LastAssignment(items[..|items| - 1])
  }

  /** The bindings after a reply. Every assignment item writes the bindings
      captured when the request was made, extended by that one item, so the
      last assignment item's write is the one that stays. Without any
      assignment item the bindings are not written at all. */
  function UpdatedBindings(current: map<string, string>, captured: map<string, string>,
                           items: seq<Response>): (r: map<string, string>)
    ensures LastAssignment(items).None? ==> r == current
    ensures LastAssignment(items).Some? ==>
              var last := LastAssignment(items).value;
              r.Keys == captured.Keys + {last.expr} && r[last.expr] == last.result &&
              forall k :: k in captured && k != last.expr ==> r[k] == captured[k]
  {
    match LastAssignment(items)
    case None => current
    case Some(last) => captured[last.expr := last.result]
  }

  /** Every assignment item merged in order, later ones overwriting earlier
      ones: the reference the reply handling is compared against. */
  function MergedBindings(bindings: map<string, string>, items: seq<Response>): (r: map<string, string>)
    ensures bindings.Keys <= r.Keys
    ensures forall i :: 0 <= i < |items| && items[i].assign ==> items[i].expr in r
    decreases |items|
  {
    if items == [] then bindings
    else
      var init := MergedBindings(bindings, items[..|items| - 1]);
      var last := items[|items| - 1];
      if last.assign then init[last.expr := last.result] else init
  }

  /** When a reply holds at most one assignment and the bindings did not
      change while it was outstanding, the reply handling agrees with the
      merge of every item. */
  lemma {:induction false} SingleAssignmentMerges(bindings: map<string, string>, items: seq<Response>)
    requires forall i, j :: 0 <= i < j < |items| && items[i].assign ==> !items[j].assign
    ensures UpdatedBindings(bindings, bindings, items) == MergedBindings(bindings, items)
    decreases |items|
  {
    if items != [] {
      var front := items[..|items| - 1];
      SingleAssignmentMerges(bindings, front);
      if items[|items| - 1].assign {
        assert forall i :: 0 <= i < |front| ==> !front[i].assign;
        assert MergedBindings(bindings, front) == bindings by {
          NoAssignmentKeeps(bindings, front);
        }
      }
    }
  }

  /** A reply without assignments leaves the merged bindings alone. */
  lemma {:induction false} NoAssignmentKeeps(bindings: map<string, string>, items: seq<Response>)
    requires forall i :: 0 <= i < |items| ==> !items[i].assign
    ensures MergedBindings(bindings, items) == bindings
    decreases |items|
  {
    if items != [] {
      NoAssignmentKeeps(bindings, items[..|items| - 1]);
    }
  }

  /** With two assignments in one reply only the second survives: the reply
      `x = 1, y = 2` binds `y` but not `x`. */
  lemma TwoAssignmentsKeepOnlyLast()
    ensures var items := [Response("x", "1", true), Response("y", "2", true)];
            var r := UpdatedBindings(map[], map[], items);
            "y" in r && r["y"] == "2" && "x" !in r &&
            "x" in MergedBindings(map[], items)
  {
  }

  /** A single assignment reply `x = 5` binds `x` to `5`. */
  lemma AssignmentBinds(bindings: map<string, string>)
    ensures UpdatedBindings(bindings, bindings, [Response("x", "5", true)])["x"] == "5"
  {
  }
}
