/** An optional value. The model uses `None` wherever the season reports
    would otherwise produce NaN or infinity, or raise a division or lookup
    error: a per-game mean over zero matches, a fair price for an empty
    market bucket, a team that is not in a table. */
module Options {

  datatype Option<+T> = None | Some(value: T)

  /** `num / den`, undefined when the denominator is zero. */
  function Quotient(num: real, den: real): (r: Option<real>)
    ensures r.Some? <==> den != 0.0
    ensures r.Some? ==> r.value * den == num
  {
    if den == 0.0 then None else Some(num / den)
  }

  /** Sum of two optional values: undefined as soon as either one is. */
  function AddOpt(a: Option<real>, b: Option<real>): (r: Option<real>)
    ensures r.Some? <==> a.Some? && b.Some?
    ensures r.Some? ==> r.value - a.value == b.value
  {
    if a.Some? && b.Some? then Some(a.value + b.value) else None
  }
}
