/** Destinations for bytes: the io.Writer the framing and logging code writes to. */
module Sinks {
  import opened Bytes

  /** What one call of the destination's Write does. */
  datatype Outcome =
    | Full
    | Partial(accepts: nat, fails: bool)

  /**
   A destination with an arbitrary future: `plan` says how the next calls behave, and calls past its end
   accept everything.
   */
  class Sink {
    var contents: seq<byte>
    var plan: seq<Outcome>

    constructor (plan: seq<Outcome>)
      ensures contents == [] && this.plan == plan
    {
      contents := [];
      this.plan := plan;
    }

    /** Every future call accepts all it is given. */
    ghost predicate Reliable()
      reads this
    {
      plan == []
    }

    /** The io.Writer contract: a call that accepts less than everything reports an error. */
    ghost predicate Honest()
      reads this
    {
      forall o <- plan :: o.Partial? ==> o.fails
    }

    /** No call reports an error, though it may accept less than everything. */
    ghost predicate Silent()
      reads this
    {
      forall o <- plan :: o.Partial? ==> !o.fails
    }

    method Write(buf: seq<byte>) returns (n: nat, failed: bool)
      modifies this
      ensures n <= |buf| && contents == old(contents) + buf[..n]
      ensures plan == if old(plan) == [] then [] else old(plan)[1..]
      ensures old(Silent()) ==> Silent() && !failed
      ensures old(Honest()) ==> Honest() && (failed || n == |buf|)
      ensures old(Reliable()) ==> Reliable() && !failed && n == |buf|
    {
      n, failed := |buf|, false;
      if plan != [] {
        if plan[0].Partial? {
          n, failed := Min(plan[0].accepts, |buf|), plan[0].fails;
        }
        plan := plan[1..];
      }
      contents := contents + buf[..n];
    }
  }
}
