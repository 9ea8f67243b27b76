/** The extremes of a stream of readings. */
module Streams {

  function RMin(x: real, y: real): real {
    if y < x then y else x
  }

  function RMax(x: real, y: real): real {
    if x < y then y else x
  }

  function Least(xs: seq<real>): real
    requires xs != []
  {
    if |xs| == 1 then xs[0] else RMin(Least(xs[..|xs| - 1]), xs[|xs| - 1])
  }

  function Greatest(xs: seq<real>): real
    requires xs != []
  {
    if |xs| == 1 then xs[0] else RMax(Greatest(xs[..|xs| - 1]), xs[|xs| - 1])
  }
}
