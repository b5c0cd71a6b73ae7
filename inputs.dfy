/** What the clients read from their form controls. */
module Inputs {

  /** A `type="number"` input: empty (its value is `""`), or the number typed. */
  datatype NumberField = Blank | Entered(value: int)
}
