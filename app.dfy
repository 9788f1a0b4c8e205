/**
 * The component's mutable state: the drive angle, the frame angle, the
 * frame ratio and the press time, each a cell that the clock callback and
 * the touch handlers update in place. The transforms derived from these
 * cells are the pure functions of module Kinematics.
 */
module Scene {
  import K = Kinematics
  import opened Controller

  class GearTrain {
    var angle: real
    var frameAngle: real
    var frameRadius: real
    var touchStartTime: int

    /** The frame ratio is one of the three modes. */
    ghost predicate Valid()
      reads this
    {
      IsMode(frameRadius)
    }

    /** The kinematic part of the state. */
    function Motion(): K.Motion
      reads this
    {
      K.Motion(angle, frameAngle, frameRadius)
    }

    /** The part of the state the touch handlers use. */
    function Touch(): Controller.Touch
      reads this
    {
      Controller.Touch(touchStartTime, frameRadius)
    }

    constructor ()
      ensures Motion() == K.InitialMotion && Touch() == InitialTouch
      ensures Valid()
    {
      angle := 0.0;
      frameAngle := 0.0;
      frameRadius := 0.5;
      touchStartTime := 0;
    }

    /** The clock callback: one tick of the kinematic model. */
    method OnClock()
      modifies this`angle, this`frameAngle
      ensures Motion() == K.Tick(old(Motion()))
      ensures old(Valid()) ==> Valid()
    {
      angle := angle + K.Speed;
      if frameRadius != 0.0 {
        frameAngle := frameAngle + K.Speed / frameRadius;
      }
    }

    /** The press handler: remember when the touch began. */
    method OnTouchStart(now: int)
      modifies this`touchStartTime
      ensures Touch() == OnStart(old(Touch()), now)
      ensures Motion() == old(Motion())
    {
      touchStartTime := now;
    }

    /**
     * The release handler: on a tap, step the frame ratio to the next mode
     * (falling back to the first mode from any other value); otherwise
     * leave everything as it is.
     */
    method OnTouchEnd(now: int)
      modifies this`frameRadius
      ensures Touch() == OnEnd(old(Touch()), now)
      ensures angle == old(angle) && frameAngle == old(frameAngle)
      ensures old(Valid()) || IsTap(touchStartTime, now) ==> Valid()
    {
      if now - touchStartTime < TapThreshold {
        if frameRadius == 0.5 {
          frameRadius := 0.0;
        } else if frameRadius == 0.0 {
          frameRadius := -0.1;
        } else {
          frameRadius := 0.5;
        }
      }
    }
  }
}
