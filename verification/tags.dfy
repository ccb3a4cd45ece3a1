/**
 * The `properties` list of a classification: "armstrong" when the number is
 * an Armstrong number, followed by exactly one parity tag.
 */
module Tags {

  import opened Wrappers
  import DotNet

  const ArmstrongTag := "armstrong"
  const EvenTag := "even"
  const OddTag := "odd"

  /** Both controllers test parity with C#'s `n % 2 == 0`. */
  predicate IsEven(n: int) {
    DotNet.CsRem(n, 2) == 0
  }

  /** The ordered tag list both controllers build. */
  function Build(armstrong: bool, n: int): (tags: seq<string>)
    ensures 1 <= |tags| <= 2
    ensures tags[|tags| - 1] == (if n % 2 == 0 then EvenTag else OddTag)
    ensures ArmstrongTag in tags <==> armstrong
    ensures forall k :: 0 <= k < |tags| && tags[k] == ArmstrongTag ==> k == 0
  {
    DotNet.CsRemZero(n, 2);
    (if armstrong then [ArmstrongTag] else []) + [if IsEven(n) then EvenTag else OddTag]
  }

  /** What a tag list says: whether the number is Armstrong, and whether it is even. */
  datatype Reading = Reading(armstrong: bool, even: bool)

  function ParityTag(tag: string): Option<bool> {
    if tag == EvenTag then Some(true) else if tag == OddTag then Some(false) else None
  }

  /** Reads a tag list back; lists `Build` cannot produce are rejected. */
  function Read(tags: seq<string>): Option<Reading> {
    if |tags| == 1 && ParityTag(tags[0]).Some? then
      Some(Reading(false, ParityTag(tags[0]).value))
    else if |tags| == 2 && tags[0] == ArmstrongTag && ParityTag(tags[1]).Some? then
      Some(Reading(true, ParityTag(tags[1]).value))
    else
      None
  }

  /** Reading a built list recovers the Armstrong flag and the parity. */
  lemma ReadBuild(armstrong: bool, n: int)
    ensures Read(Build(armstrong, n)) == Some(Reading(armstrong, n % 2 == 0))
  {
    var tags := Build(armstrong, n);
    if armstrong {
      assert tags[0] == ArmstrongTag;
    }
  }

  /** Every list that reads back is the list built from what it says. */
  lemma BuildRead(tags: seq<string>)
    requires Read(tags).Some?
    ensures tags == Build(Read(tags).value.armstrong, if Read(tags).value.even then 0 else 1)
  {
  }
}
