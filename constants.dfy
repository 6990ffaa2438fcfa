/** Counts and the joint-name table of the HTS wire format. */
module Constants {

  /** Values in a wrist line: position x, y, z and quaternion qx, qy, qz, qw. */
  const WristValueCount: nat := 7

  /** Points in a landmarks line. */
  const LandmarkCount: nat := 21

  /** Values in a landmarks line: three coordinates per point. */
  const LandmarkValueCount: nat := LandmarkCount * 3

  /** The joint that each landmark index stands for, in streaming order. */
  const StreamedJointNames: seq<string> := [
    "Wrist",
    "ThumbMetacarpal",
    "ThumbProximal",
    "ThumbDistal",
    "ThumbTip",
    "IndexProximal",
    "IndexIntermediate",
    "IndexDistal",
    "IndexTip",
    "MiddleProximal",
    "MiddleIntermediate",
    "MiddleDistal",
    "MiddleTip",
    "RingProximal",
    "RingIntermediate",
    "RingDistal",
    "RingTip",
    "LittleProximal",
    "LittleIntermediate",
    "LittleDistal",
    "LittleTip"
  ]

  /** The fingers in the order in which the table lists their joints. */
  const FingerNames: seq<string> := ["Thumb", "Index", "Middle", "Ring", "Little"]

  /** The four joints of a finger from the palm outwards; the thumb has a metacarpal instead of an intermediate joint. */
  function FingerJointSuffixes(finger: nat): (r: seq<string>)
    requires finger < |FingerNames|
    ensures |r| == 4
  {
    if finger == 0 then ["Metacarpal", "Proximal", "Distal", "Tip"]
    else ["Proximal", "Intermediate", "Distal", "Tip"]
  }

  /** Name of the j-th joint of a finger, as the table spells it. */
  function FingerJointName(finger: nat, j: nat): string
    requires finger < |FingerNames| && j < 4
  {
    FingerNames[finger] + FingerJointSuffixes(finger)[j]
  }

  /** The counts agree with each other and with the table. */
  lemma CountsAgree()
    ensures WristValueCount == 7
    ensures LandmarkValueCount == 3 * LandmarkCount == 63
    ensures |StreamedJointNames| == LandmarkCount
  {
  }

  /** The table is the wrist followed by four joints per finger, Thumb, Index, Middle, Ring, Little. */
  lemma JointNameLayout()
    ensures StreamedJointNames[0] == "Wrist"
    ensures forall f, j :: 0 <= f < |FingerNames| && 0 <= j < 4 ==>
      StreamedJointNames[1 + 4 * f + j] == FingerJointName(f, j)
  {
    forall f, j | 0 <= f < |FingerNames| && 0 <= j < 4
      ensures StreamedJointNames[1 + 4 * f + j] == FingerJointName(f, j)
    {
      FingerLayout(f);
    }
  }

  /** The four table entries of one finger. */
  lemma FingerLayout(f: nat)
    requires f < |FingerNames|
    ensures forall j :: 0 <= j < 4 ==> StreamedJointNames[1 + 4 * f + j] == FingerJointName(f, j)
  {
    if f == 0 {
      ThumbLayout();
    } else if f == 1 {
      IndexLayout();
    } else if f == 2 {
      MiddleLayout();
    } else if f == 3 {
      RingLayout();
    } else {
      LittleLayout();
    }
  }

  lemma ThumbLayout()
    ensures forall j :: 0 <= j < 4 ==> StreamedJointNames[1 + j] == FingerJointName(0, j)
  {
    assert FingerJointName(0, 0) == "ThumbMetacarpal";
    assert FingerJointName(0, 1) == "ThumbProximal";
    assert FingerJointName(0, 2) == "ThumbDistal";
    assert FingerJointName(0, 3) == "ThumbTip";
  }

  lemma IndexLayout()
    ensures forall j :: 0 <= j < 4 ==> StreamedJointNames[5 + j] == FingerJointName(1, j)
  {
    assert FingerJointName(1, 0) == "IndexProximal";
    assert FingerJointName(1, 1) == "IndexIntermediate";
    assert FingerJointName(1, 2) == "IndexDistal";
    assert FingerJointName(1, 3) == "IndexTip";
  }

  lemma MiddleLayout()
    ensures forall j :: 0 <= j < 4 ==> StreamedJointNames[9 + j] == FingerJointName(2, j)
  {
    assert FingerJointName(2, 0) == "MiddleProximal";
    assert FingerJointName(2, 1) == "MiddleIntermediate";
    assert FingerJointName(2, 2) == "MiddleDistal";
    assert FingerJointName(2, 3) == "MiddleTip";
  }

  lemma RingLayout()
    ensures forall j :: 0 <= j < 4 ==> StreamedJointNames[13 + j] == FingerJointName(3, j)
  {
    assert FingerJointName(3, 0) == "RingProximal";
    assert FingerJointName(3, 1) == "RingIntermediate";
    assert FingerJointName(3, 2) == "RingDistal";
    assert FingerJointName(3, 3) == "RingTip";
  }

  lemma LittleLayout()
    ensures forall j :: 0 <= j < 4 ==> StreamedJointNames[17 + j] == FingerJointName(4, j)
  {
    assert FingerJointName(4, 0) == "LittleProximal";
    assert FingerJointName(4, 1) == "LittleIntermediate";
    assert FingerJointName(4, 2) == "LittleDistal";
    assert FingerJointName(4, 3) == "LittleTip";
  }

  /** No joint name occurs twice, so a name identifies its landmark index. */
  lemma JointNamesDistinct()
    ensures forall i, j :: 0 <= i < j < |StreamedJointNames| ==> StreamedJointNames[i] != StreamedJointNames[j]
  {
  }
}
