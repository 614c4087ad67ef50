/**
 * Small definitions shared by several modules.
 */
module Common {

  datatype Option<T> = None | Some(value: T)

  function Abs(v: real): (r: real)

  {
    if v < 0.0 then -v else v
  }
}
