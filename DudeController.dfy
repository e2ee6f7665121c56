/**
 * The shared character base: a grounded flag whose setter resets the
 * movement state on landing, and dodge animation events.
 */
module Dude {

  datatype MovementState = Locomotion | Attack | Dodge | Hit

  class DudeController {
    var isGroundedField: bool
    var dodgeMovement: bool
    var movementState: MovementState
    /** The animator's "grounded" parameter. */
    var animGrounded: bool

    constructor ()
      ensures !isGroundedField && !dodgeMovement && movementState == Locomotion && !animGrounded
    {
      isGroundedField := false;
      dodgeMovement := false;
      movementState := Locomotion;
      animGrounded := false;
    }

    /**
     * The `isGrounded` setter: landing (false to true) resets the movement
     * state to Locomotion; every other assignment keeps it.
     */
    method SetIsGrounded(value: bool)
      modifies this
      ensures isGroundedField == value && animGrounded == value
      ensures movementState == if value && !old(isGroundedField) then Locomotion else old(movementState)
      ensures dodgeMovement == old(dodgeMovement)
    {
      if value == true && isGroundedField == false {
        movementState := Locomotion;
      }
      isGroundedField := value;
      animGrounded := isGroundedField;
    }

    /**
     * Any dodge event puts the character in Dodge; "start" turns the dodge
     * movement on, "end" turns it off and returns to Locomotion.
     */
    method DodgeEvent(message: string)
      modifies this
      ensures message == "end" ==> movementState == Locomotion && !dodgeMovement
      ensures message == "start" ==> movementState == Dodge && dodgeMovement
      ensures message != "start" && message != "end" ==>
                movementState == Dodge && dodgeMovement == old(dodgeMovement)
      ensures isGroundedField == old(isGroundedField) && animGrounded == old(animGrounded)
    {
      movementState := Dodge;
      if message == "start" {
        dodgeMovement := true;
      }
      if message == "end" {
        dodgeMovement := false;
        movementState := Locomotion;
      }
    }
  }
}
