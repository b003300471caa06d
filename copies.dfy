/** script.js registers two near-identical copies of the app; where they behave differently the model takes the copy as a parameter. */
module Copies {
  /** The copy at script.js:2-838, and the one at script.js:839-1505. */
  datatype Copy = FirstCopy | SecondCopy
}
