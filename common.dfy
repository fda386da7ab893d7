/**
 * Types shared by the template compiler, the matching engine and the
 * calendar construction of the strptime package.
 */
module Common {

  /** The field directives of a format template. Every kind reads a fixed
      number of characters except `Fraction`, which reads a run of digits. */
  datatype Kind =
    | Year       // %Y, four digits
    | Month      // %m, two digits
    | Day        // %d, two digits
    | Hour24     // %H, two digits
    | Hour12     // %I, two digits
    | Minute     // %M, two digits
    | Second     // %S, two digits
    | Fraction   // %f, a non-empty run of digits
    | MonthName  // %b, one of Jan ... Dec
    | Meridiem   // %p, am or pm in any letter case

  /** The failure classes a parse can end in. Positions are offsets into the
      format (compile errors) or into the subject (matching errors). */
  datatype Error =
    | CompileError(at: nat)          // unknown directive, or a misplaced %-
    | LiteralMismatch(at: nat)       // the subject does not hold the literal here
    | FieldShape(at: nat)            // a field's characters are not of its class
    | WildcardUnresolved(at: nat)    // the literal after %- never occurs
    | TrailingInput(at: nat)         // tokens exhausted before the subject
    | OutOfRange(field: Kind)        // a well-formed value outside its calendar range

  /** The field table of one parse: the value captured for each kind. The
      month of `%b` is kept under `Month`; `%f` keeps nothing. */
  type Table = map<Kind, nat>

  datatype Result<+T> = Ok(value: T) | Err(error: Error)

  datatype Option<+T> = None | Some(value: T)
}
