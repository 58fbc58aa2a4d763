/** One row of the evaluation history kept by the Python wrapper, and its column names. */
module Trials {
  import opened Seqs

  /** The two utility columns that every row carries beside the parameter columns. */
  const CostColumn: string := "cost"
  const InvalidColumn: string := "invalid_parameter_combination"

  /** A trial: the parameter values as the optimizer proposed them, the cost and the invalid flag. */
  datatype Trial = Trial(parameters: map<string, real>, cost: real, invalid: bool)

  /** A dictionary built from `zip(names, values)`: pairs up to the shorter input, a later duplicate name wins. */
  function ZipToMap(names: seq<string>, values: seq<real>): (m: map<string, real>)
    ensures forall k :: k in m <==> exists i :: 0 <= i < |names| && i < |values| && names[i] == k
  {
    if names == [] || values == [] then map[]
    else map[names[0] := values[0]] + ZipToMap(names[1..], values[1..])
  }

  /** With distinct names, each name maps to the value at its own position. */
  lemma {:induction false} ZipToMapAt(names: seq<string>, values: seq<real>, i: nat)
    requires Distinct(names)
    requires i < |names| && i < |values|
    ensures names[i] in ZipToMap(names, values) && ZipToMap(names, values)[names[i]] == values[i]
  {
    if i > 0 {
      ZipToMapAt(names[1..], values[1..], i - 1);
      assert names[0] != names[i];
    }
  }
}
