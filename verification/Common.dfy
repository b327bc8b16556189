/** Shared vocabulary. */
module Common {
  datatype Option<+T> = None | Some(value: T)

  datatype Result<+T, +E> = Ok(value: T) | Err(error: E)

  /** `s` without its leading white space, what white space is being a parameter. */
  function TrimStart(s: string, space: char -> bool): (r: string)
    ensures |r| <= |s| && r == s[|s| - |r|..] && (r != [] ==> !space(r[0]))
    ensures forall i | 0 <= i < |s| - |r| :: space(s[i])
  {
    if s != [] && space(s[0]) then TrimStart(s[1..], space) else s
  }

  function Concat(pieces: seq<string>): string {
    if pieces == [] then "" else Concat(pieces[..|pieces| - 1]) + pieces[|pieces| - 1]
  }
}
