/** Field points for autonomous routines and their mirroring between the
    blue and red alliances.  The field is 8.221 m wide; the red side is the
    blue side reflected across the field's long centre line. */
module AutoMaker {
  import opened Geometry

  datatype Alliance = Blue | Red

  const FieldWidth: real := 8.221
  /** Distance from the robot centre to the intake, m. */
  const IntakeOffset: real := 0.381

  /** Rotation2d(Math.PI): the double cosine and sine of pi. */
  const HeadingPi: Rotation := Rotation(Pi, -1.0, 0.00000000000000012246467991473532)

  /** forAlliance for a translation: unchanged for blue, y reflected for red. */
  function TranslationForAlliance(t: Translation, alliance: Alliance): (r: Translation)
    ensures alliance == Blue ==> r == t
    ensures alliance != Blue ==> r.x == t.x && r.y == FieldWidth - t.y
  {
    if alliance == Blue then t else Translation(t.x, FieldWidth - t.y)
  }

  /** Mirroring a translation twice gives it back, for either alliance. */
  lemma TranslationMirrorIsInvolution(t: Translation, alliance: Alliance)
    ensures TranslationForAlliance(TranslationForAlliance(t, alliance), alliance) == t
  {
  }

  /** forAlliance for a rotation: rotation.times(-1), for every alliance.
      Java's cosine is even and its sine odd, so the cosine is kept and the
      sine negated. */
  function RotationForAlliance(rot: Rotation, alliance: Alliance): (r: Rotation)
    ensures r.radians == -rot.radians && r.cos == rot.cos && r.sin == -rot.sin
    ensures OnUnitCircle(rot) ==> OnUnitCircle(r)
  {
    Rotation(-rot.radians, rot.cos, -rot.sin)
  }

  lemma RotationMirrorIsInvolution(rot: Rotation, alliance: Alliance)
    ensures RotationForAlliance(RotationForAlliance(rot, alliance), alliance) == rot
  {
  }

  /** forAlliance for a pose, as written: both parts mirrored separately. */
  function PoseForAlliance(p: Pose, alliance: Alliance): (r: Pose)
    ensures r.translation == TranslationForAlliance(p.translation, alliance)
    ensures r.rotation == RotationForAlliance(p.rotation, alliance)
  {
    Pose(TranslationForAlliance(p.translation, alliance), RotationForAlliance(p.rotation, alliance))
  }

  /** As written, a blue pose is not left alone: the position stays but the
      heading is negated, so a robot facing 90 degrees is turned to face
      -90 degrees on its own alliance's side. */
  lemma BluePoseIsTurned()
    ensures var p := Pose(Translation(1.0, 1.0), Rotation(Pi / 2.0, 0.0, 1.0));
            var m := PoseForAlliance(p, Blue);
            m.translation == p.translation && m.rotation != p.rotation
  {
  }

  /** The red mirror is a reflection: it is its own inverse on whole poses. */
  lemma PoseMirrorIsInvolution(p: Pose, alliance: Alliance)
    ensures PoseForAlliance(PoseForAlliance(p, alliance), alliance) == p
  {
  }

  /** Pose mirroring with blue as the identity, matching the translation
      overload; red reflects position and heading together. */
  function PoseForAllianceCorrected(p: Pose, alliance: Alliance): (r: Pose)
    ensures alliance == Blue ==> r == p
    ensures alliance == Red ==> r == PoseForAlliance(p, Red)
  {
    if alliance == Blue then p else PoseForAlliance(p, alliance)
  }

  /** The corrected mirror is still its own inverse. */
  lemma CorrectedPoseMirrorIsInvolution(p: Pose, alliance: Alliance)
    ensures PoseForAllianceCorrected(PoseForAllianceCorrected(p, alliance), alliance) == p
  {
    if alliance == Red {
      PoseMirrorIsInvolution(p, Red);
    }
  }

  datatype FieldPoint =
    | Note1 | Note2 | Note3 | Note4 | Note5 | Note6 | Note7 | Note8
    | CloseWingShot | FarWingShot | StageShot
    | CentralStageOpening | StageAdjacent | FarStageOpening | DropShot

  /** The blue-side coordinates of each field point. */
  function BlueTranslation(point: FieldPoint): Translation {
    match point
    case Note1 => Translation(2.8956, 7.0061)
    case Note2 => Translation(2.8956, 5.5583)
    case Note3 => Translation(2.8956, 4.1105)
    case Note4 => Translation(8.271, 0.7577)
    case Note5 => Translation(8.271, 2.4341)
    case Note6 => Translation(8.271, 4.1105)
    case Note7 => Translation(8.271, 5.7869)
    case Note8 => Translation(8.271, 7.4633)
    case CloseWingShot => Translation(5.87248, 6.4)
    case FarWingShot => Translation(4.0, 1.5)
    case StageShot => Translation(4.25, 5.0)
    case CentralStageOpening => Translation(5.87248, 4.1105)
    case FarStageOpening => Translation(4.3, 3.3)
    case StageAdjacent => Translation(5.87248, 1.9)
    case DropShot => Translation(0.5, 1.8)
  }

  /** getTranslation: the blue coordinates mirrored for the alliance. */
  function GetTranslation(point: FieldPoint, alliance: Alliance): (r: Translation)
    ensures TranslationForAlliance(r, alliance) == BlueTranslation(point)
    ensures 0.0 < r.y < FieldWidth
  {
    TranslationForAlliance(BlueTranslation(point), alliance)
  }

  predicate IsStageOpening(point: FieldPoint) {
    point == CentralStageOpening || point == FarStageOpening || point == StageAdjacent
  }

  predicate IsShot(point: FieldPoint) {
    point == CloseWingShot || point == FarWingShot || point == StageShot || point == DropShot
  }

  predicate IsNearNote(point: FieldPoint) {
    point == Note1 || point == Note2 || point == Note3
  }

  /** getPose.  `aimAtSpeaker` is the shooter's aiming rule.  The near notes
      are approached facing the speaker with the intake on the note; shot
      points face the speaker; stage openings face pi; the far notes face
      pi with the intake on the note. */
  function GetPose(point: FieldPoint, alliance: Alliance, aimAtSpeaker: Translation -> Rotation): (r: Pose)
    ensures var t := GetTranslation(point, alliance);
            && (IsStageOpening(point) ==> r == Pose(t, HeadingPi))
            && (IsShot(point) ==> r == Pose(t, aimAtSpeaker(t)))
            && (IsNearNote(point) ==>
                  var h := aimAtSpeaker(t);
                  r.rotation == h && r.translation == Translation(t.x + IntakeOffset * h.cos, t.y + IntakeOffset * h.sin))
            && (!IsStageOpening(point) && !IsShot(point) && !IsNearNote(point) ==>
                  r == Pose(Translation(t.x - IntakeOffset, t.y), HeadingPi))
  {
    var t := GetTranslation(point, alliance);
    if IsNearNote(point) then
      var h := aimAtSpeaker(t);
      Pose(t.Plus(Translation(IntakeOffset * h.cos, IntakeOffset * h.sin)), h)
    else if IsShot(point) then Pose(t, aimAtSpeaker(t))
    else if IsStageOpening(point) then Pose(t, HeadingPi)
    else Pose(t.Plus(Translation(-IntakeOffset, 0.0)), HeadingPi)
  }

  /** The far notes sit on the centre line: their poses, for either
      alliance, are 0.381 m short of x = 8.271 and face pi. */
  lemma FarNotePoses(point: FieldPoint, alliance: Alliance, aimAtSpeaker: Translation -> Rotation)
    requires point == Note4 || point == Note5 || point == Note6 || point == Note7 || point == Note8
    ensures GetPose(point, alliance, aimAtSpeaker).translation.x == 8.271 - 0.381
    ensures GetPose(point, alliance, aimAtSpeaker).rotation == HeadingPi
  {
    assert BlueTranslation(point).x == 8.271;
    assert GetTranslation(point, alliance).x == 8.271;
  }
}
