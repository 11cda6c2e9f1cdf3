/**
 * The vocabulary of the `.vs` pick format: whitespace-separated tokens, the survey
 * geometry given on the command line, and the ways a conversion can fail.
 */
module VsFormat {
  import opened Wrappers

  /**
   * One whitespace-separated token of an input line, classified by which of Python's
   * conversions accept it:
   *  - IntLit: an integer literal, accepted by both `int()` and `float()`;
   *  - DecLit: a decimal or exponent literal (`2.5`, `1.0`, `1e3`), accepted by `float()` only;
   *  - Word: anything else, rejected by both.
   */
  datatype Tok = IntLit(i: int) | DecLit(d: real) | Word

  /** `float(token)`: None when Python raises ValueError. */
  function AsFloat(t: Tok): (r: Option<real>)
    ensures r.None? <==> t.Word?
    ensures t.IntLit? ==> r == Some(t.i as real)
  {
    match t
    case IntLit(i) => Some(i as real)
    case DecLit(d) => Some(d)
    case Word => None
  }

  /** `int(token)` on the token text itself: only an integer literal is accepted. */
  function AsInt(t: Tok): (r: Option<int>)
    ensures r.Some? <==> t.IntLit?
    ensures r.Some? ==> AsFloat(t) == Some(r.value as real)
  {
    match t
    case IntLit(i) => Some(i)
    case _ => None
  }

  /** Survey geometry, supplied by the caller and fixed for one conversion. */
  datatype Geometry = Geometry(
    firstShot: real,
    lastShot: real,
    firstGeophone: real,
    lastGeophone: real,
    shotSpacing: real)
  {
    /** Where the k-th shot (counting from 0) is expected along the line. */
    function ShotPosition(k: int): real
    {
      firstShot + k as real * shotSpacing
    }
  }

  /** Every way a conversion aborts; each is fatal and no output is produced. */
  datatype Error =
    | MissingToken        // a field index past the end of a line (IndexError)
    | BadNumber           // `int()` or `float()` rejected a token (ValueError)
    | InvalidLineFormat   // a line without three fields that is not the end marker
    | ShotMismatch        // a shot marker that is not at the next expected shot position
    | GeophoneOutOfRange  // a pick outside [first geophone, last geophone]
    | DivisionByZero      // a zero shot spacing or geophone spacing (ZeroDivisionError)
}
