/**
 * The click flag of one music note (Assets/Clickable.cs). The flag has a
 * private setter in the source, so only the methods below change it.
 */
module Clicking {

  class Clickable {
    var isClicked: bool

    /** Unity's start hook: the flag begins cleared. */
    method Start()
      modifies this
      ensures !isClicked
    {
      isClicked := false;
    }

    /** A mouse press on the note sets the flag, whatever it was before. */
    method OnMouseDown()
      modifies this
      ensures isClicked
    {
      isClicked := true;
    }

    /**
     * Clears the flag, whatever it was before; so a second reset leaves the
     * object exactly as the first one did.
     */
    method ResetClicked()
      modifies this
      ensures !isClicked
    {
      isClicked := false;
    }

    /** Unity's per-frame hook does nothing. */
    method Update()
      ensures isClicked == old(isClicked)
    {
    }
  }
}
