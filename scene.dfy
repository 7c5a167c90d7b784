/** The scene controller of src/hooks/use3DScene.js: the interaction mode,
    the camera position state and the auto-rotate flag. */
module Scene {
  import opened Common
  import Placement

  /** INTERACTION_MODES. */
  datatype Mode = ConnectionMode | MoveMode | CameraMode

  /** The successor toggleMode picks: connection, then move, then camera,
      then connection again. */
  function NextMode(m: Mode): (r: Mode)
    ensures r != m
  {
    if m == ConnectionMode then MoveMode
    else if m == MoveMode then CameraMode
    else ConnectionMode
  }

  /** Three toggles return to the starting mode, and no fewer do: the cycle
      visits all three modes. */
  lemma ToggleCycle(m: Mode)
    ensures NextMode(NextMode(NextMode(m))) == m
    ensures NextMode(NextMode(m)) != m
    ensures {m, NextMode(m), NextMode(NextMode(m))} == {ConnectionMode, MoveMode, CameraMode}
  {
  }

  class SceneController {
    var mode: Mode
    var cameraPosition: Vec3
    var autoRotate: bool

    constructor ()
      ensures mode == ConnectionMode
      ensures cameraPosition == Placement.CameraDefaultPosition()
      ensures autoRotate
    {
      mode := ConnectionMode;
      cameraPosition := Placement.CameraDefaultPosition();
      autoRotate := true;
    }

    method ToggleMode()
      modifies this
      ensures mode == NextMode(old(mode))
      ensures cameraPosition == old(cameraPosition) && autoRotate == old(autoRotate)
    {
      mode := NextMode(mode);
    }

    method ResetCamera()
      modifies this
      ensures cameraPosition == Placement.CameraDefaultPosition()
      ensures mode == old(mode) && autoRotate == old(autoRotate)
    {
      cameraPosition := Placement.CameraDefaultPosition();
    }

    /** The named preset, or the default position for a name the table
        does not have. */
    method SetCameraPreset(presetName: string)
      modifies this
      ensures presetName in Placement.PresetNames ==> Some(cameraPosition) == Placement.CameraPreset(presetName)
      ensures presetName !in Placement.PresetNames ==> cameraPosition == Placement.CameraDefaultPosition()
      ensures mode == old(mode) && autoRotate == old(autoRotate)
    {
      cameraPosition := Placement.PresetOrDefault(presetName);
    }

    method ToggleAutoRotate()
      modifies this
      ensures autoRotate == !old(autoRotate)
      ensures mode == old(mode) && cameraPosition == old(cameraPosition)
    {
      autoRotate := !autoRotate;
    }

    method EnableConnectionMode()
      modifies this
      ensures mode == ConnectionMode
      ensures cameraPosition == old(cameraPosition) && autoRotate == old(autoRotate)
    {
      mode := ConnectionMode;
    }

    method EnableMoveMode()
      modifies this
      ensures mode == MoveMode
      ensures cameraPosition == old(cameraPosition) && autoRotate == old(autoRotate)
    {
      mode := MoveMode;
    }

    method EnableCameraMode()
      modifies this
      ensures mode == CameraMode
      ensures cameraPosition == old(cameraPosition) && autoRotate == old(autoRotate)
    {
      mode := CameraMode;
    }
  }

  /** A client of the controller: three toggles come back to the start, and
      toggling auto-rotate twice restores the flag. */
  method ToggleRoundTrips(s: SceneController)
    modifies s
    ensures s.mode == old(s.mode) && s.autoRotate == old(s.autoRotate) && s.cameraPosition == old(s.cameraPosition)
  {
    ToggleCycle(s.mode);
    s.ToggleMode();
    s.ToggleMode();
    s.ToggleMode();
    s.ToggleAutoRotate();
    s.ToggleAutoRotate();
  }
}
