/** The poll catalogue of src/lib/game-data.ts and its three lookups. */
module Catalogue {
  import opened Protocol

  /** `correctAnswer` is either one label or a list of labels. */
  datatype Answer = Single(answer: string) | AnyOf(answers: seq<string>)

  /** A poll as the game logic sees it. */
  datatype Poll = Poll(
    id: string,
    segment: int,
    options: seq<string>,
    correctAnswer: Answer,
    votingTime: nat,  // seconds
    revealTime: nat)  // seconds

  /** The fields of a poll that only the rendering reads. */
  datatype PollText = PollText(
    segmentName: string,
    title: string,
    imageUrl: string,
    question: string,
    explanation: string)

  /** The labels that count as correct. */
  function CorrectLabels(a: Answer): seq<string>
  {
    match a
    case Single(x) => [x]
    case AnyOf(xs) => xs
  }

  /** `gameData`: 19 polls in four segments; GameText holds the display
      fields of the poll at the same index. */
  const GameData: seq<Poll> := [
    Poll(id := "seg-1-1", segment := 1,
      options := ["Yes", "No", "Not sure"],
      correctAnswer := Single("No"),
      votingTime := 20, revealTime := 15),
    Poll(id := "seg-1-2", segment := 1,
      options := ["Yes", "No", "Can't tell"],
      correctAnswer := Single("No"),
      votingTime := 20, revealTime := 15),
    Poll(id := "seg-1-3", segment := 1,
      options := ["Blue & Black", "White & Gold", "Other"],
      correctAnswer := AnyOf(["Blue & Black", "White & Gold"]),
      votingTime := 20, revealTime := 15),
    Poll(id := "seg-2-1", segment := 2,
      options := ["Duck", "Rabbit", "Both", "Neither"],
      correctAnswer := AnyOf(["Duck", "Rabbit", "Both"]),
      votingTime := 30, revealTime := 20),
    Poll(id := "seg-2-2", segment := 2,
      options := ["Young woman", "Old woman", "Both", "No one"],
      correctAnswer := AnyOf(["Young woman", "Old woman", "Both"]),
      votingTime := 30, revealTime := 20),
    Poll(id := "seg-2-3", segment := 2,
      options := ["Vase", "Two faces", "Both", "Nothing"],
      correctAnswer := AnyOf(["Vase", "Two faces", "Both"]),
      votingTime := 30, revealTime := 20),
    Poll(id := "seg-2-4", segment := 2,
      options := ["Clockwise", "Counterclockwise", "Both", "Not spinning"],
      correctAnswer := AnyOf(["Clockwise", "Counterclockwise", "Both"]),
      votingTime := 30, revealTime := 20),
    Poll(id := "seg-2-5", segment := 2,
      options := ["Top-left", "Bottom-right", "Changes", "Can't tell"],
      correctAnswer := AnyOf(["Top-left", "Bottom-right", "Changes"]),
      votingTime := 30, revealTime := 20),
    Poll(id := "seg-2-6", segment := 2,
      options := ["Parallel", "Tilted", "Curved", "Wavy"],
      correctAnswer := Single("Parallel"),
      votingTime := 30, revealTime := 20),
    Poll(id := "seg-2-7", segment := 2,
      options := ["Above", "Below", "Both", "Side view"],
      correctAnswer := AnyOf(["Above", "Below", "Both"]),
      votingTime := 30, revealTime := 20),
    Poll(id := "seg-3-1", segment := 3,
      options := ["Arrow", "Triangle", "Letter", "Nothing"],
      correctAnswer := Single("Arrow"),
      votingTime := 45, revealTime := 30),
    Poll(id := "seg-3-2", segment := 3,
      options := ["Top-left", "Center", "Bottom-right", "No face"],
      correctAnswer := Single("Center"),
      votingTime := 60, revealTime := 30),
    Poll(id := "seg-3-3", segment := 3,
      options := ["2", "3", "4", "5+"],
      correctAnswer := Single("4"),
      votingTime := 75, revealTime := 30),
    Poll(id := "seg-3-4", segment := 3,
      options := ["13", "B", "Both", "Neither"],
      correctAnswer := AnyOf(["13", "B", "Both"]),
      votingTime := 45, revealTime := 30),
    Poll(id := "seg-3-5", segment := 3,
      options := ["A & B", "B & C", "A & C", "All different"],
      correctAnswer := Single("A & B"),
      votingTime := 60, revealTime := 45),
    Poll(id := "seg-4-1", segment := 4,
      options := ["8", "12", "74", "Nothing"],
      correctAnswer := Single("12"),
      votingTime := 20, revealTime := 15),
    Poll(id := "seg-4-2", segment := 4,
      options := ["3", "5", "74", "Nothing"],
      correctAnswer := Single("74"),
      votingTime := 20, revealTime := 15),
    Poll(id := "seg-4-3", segment := 4,
      options := ["45", "46", "8", "Nothing"],
      correctAnswer := Single("8"),
      votingTime := 20, revealTime := 15),
    Poll(id := "seg-4-4", segment := 4,
      options := ["2", "5", "6", "Nothing"],
      correctAnswer := Single("6"),
      votingTime := 25, revealTime := 20)
  ]

  const GameText: seq<PollText> := [
    PollText(
      segmentName := "Opening Hook",
      title := "Penrose Triangle",
      imageUrl := "/illusions/seg-1-1-Penrose_triangle.svg",
      question := "Is this object possible to build in real life?",
      explanation := "This is an impossible object - it looks real in 2D but can't exist in 3D space!"),
    PollText(
      segmentName := "Opening Hook",
      title := "Rotating Snakes",
      imageUrl := "/illusions/seg-1-2-rotsnak5.gif",
      question := "Does this image actually move?",
      explanation := "It's completely still! Your brain creates the illusion of movement from the pattern contrasts."),
    PollText(
      segmentName := "Opening Hook",
      title := "The Dress",
      imageUrl := "/illusions/seg-1-3-The_dress_blueblackwhitegold.jpg",
      question := "What colors do you see in the dress?",
      explanation := "Both are valid! Your brain interprets the lighting differently."),
    PollText(
      segmentName := "Reaction Challenge",
      title := "Duck-Rabbit",
      imageUrl := "/illusions/seg-2-1-Duck-Rabbit_illusion.jpg",
      question := "What animal do you see?",
      explanation := "Classic ambiguous image - your brain switches between interpretations!"),
    PollText(
      segmentName := "Reaction Challenge",
      title := "Young Woman / Old Woman",
      imageUrl := "/illusions/seg-2-2-Youngoldwoman.jpg",
      question := "Who do you see in this image?",
      explanation := "The young woman's ear becomes the old woman's eye! Look again!"),
    PollText(
      segmentName := "Reaction Challenge",
      title := "Rubin's Vase / Faces",
      imageUrl := "/illusions/seg-2-3-Face_or_vase_ata_01.svg",
      question := "What do you see first?",
      explanation := "Figure-ground illusion - your brain can only see one interpretation at a time!"),
    PollText(
      segmentName := "Reaction Challenge",
      title := "Spinning Dancer",
      imageUrl := "/illusions/seg-2-4-Spinning_Dancer.gif",
      question := "Which direction is the dancer spinning?",
      explanation := "No depth cues mean your brain guesses the rotation direction!"),
    PollText(
      segmentName := "Reaction Challenge",
      title := "Necker Cube",
      imageUrl := "/illusions/seg-2-5-Cube1.svg",
      question := "Which face of the cube is in front?",
      explanation := "Ambiguous depth cue - the cube flips perspective as you watch!"),
    PollText(
      segmentName := "Reaction Challenge",
      title := "Café Wall Illusion",
      imageUrl := "/illusions/seg-2-6-Café_wall.svg",
      question := "Are the horizontal lines parallel or tilted?",
      explanation := "They're perfectly straight! The offset squares trick your brain."),
    PollText(
      segmentName := "Reaction Challenge",
      title := "Schröder Stairs",
      imageUrl := "/illusions/seg-2-7-Schroeder-trepperp.png",
      question := "Are you looking at the stairs from above or below?",
      explanation := "Reversible figure - your brain alternates between interpretations!"),
    PollText(
      segmentName := "Hunt Game",
      title := "FedEx Arrow",
      imageUrl := "/illusions/seg-3-1-FedEx_Ground_-_2016_Logo.svg",
      question := "What's hidden in the FedEx logo?",
      explanation := "The negative space between E and x forms an arrow - most people never notice it!"),
    PollText(
      segmentName := "Hunt Game",
      title := "Hidden Face in Landscape",
      imageUrl := "/illusions/seg-3-2-hidden-face-landscape.avif",
      question := "Where is the hidden face?",
      explanation := "Pareidolia - your brain is wired to recognize faces everywhere!"),
    PollText(
      segmentName := "Hunt Game",
      title := "Hidden Animals",
      imageUrl := "/illusions/seg-3-3-hidden-animals-spot.avif",
      question := "How many animals are hidden in this image?",
      explanation := "Each animal shares body parts with others - clever visual puzzle!"),
    PollText(
      segmentName := "Hunt Game",
      title := "ABC or 13?",
      imageUrl := "/illusions/seg-3-4-B_or_13.gif",
      question := "What do you see in the middle?",
      explanation := "Context determines what your brain interprets! The same shape reads as letter or number."),
    PollText(
      segmentName := "Hunt Game",
      title := "Adelson's Checker Shadow",
      imageUrl := "/illusions/seg-3-5-Checker_shadow_illusion.svg",
      question := "Which squares are the SAME shade of gray?",
      explanation := "They're the exact same color! Surrounding colors trick your perception. We'll prove it by connecting them!"),
    PollText(
      segmentName := "Color Vision Test",
      title := "Easy Plate (Baseline)",
      imageUrl := "/illusions/seg-4-1-easy-1-12.png",
      question := "What number do you see?",
      explanation := "Normal vision: 12 | Red-green colorblind: may see nothing or different numbers"),
    PollText(
      segmentName := "Color Vision Test",
      title := "Medium Difficulty",
      imageUrl := "/illusions/seg-4-2-easy-2-74.png",
      question := "What number do you see?",
      explanation := "Different types of color blindness see different numbers! This reveals if you're red-blind vs green-blind."),
    PollText(
      segmentName := "Color Vision Test",
      title := "Vanishing Number",
      imageUrl := "/illusions/seg-4-3-easy-3-8.png",
      question := "What number do you see?",
      explanation := "Only those with normal color vision can distinguish the green from red dots!"),
    PollText(
      segmentName := "Color Vision Test",
      title := "BONUS - Super Hard",
      imageUrl := "/illusions/seg-4-4-medium-1-6.png",
      question := "Can you see ANY number? (Very difficult!)",
      explanation := "If you saw it, you have exceptional color sensitivity! Only 1 in 5 people can read this plate.")
  ]

  /** `a` is `b` with some elements left out, order kept. */
  predicate IsSubsequence<T(==)>(a: seq<T>, b: seq<T>)
    decreases |b|
  {
    if a == [] then true
    else if b == [] then false
    else if a[0] == b[0] then IsSubsequence(a[1..], b[1..])
    else IsSubsequence(a, b[1..])
  }

  /** `polls.filter(poll => poll.segment === segment)`. */
  function FilterSegment(polls: seq<Poll>, segment: int): (r: seq<Poll>)
    ensures |r| <= |polls|
    ensures forall i :: 0 <= i < |r| ==> r[i].segment == segment
    decreases |polls|
  {
    if polls == [] then []
    else if polls[0].segment == segment then [polls[0]] + FilterSegment(polls[1..], segment)
    else FilterSegment(polls[1..], segment)
  }

  /** `polls.findIndex(p => p.id === id)`, with None for -1. A found index
      holds a poll with that id; FindIndexSpec says it is the first and that
      None means there is none. */
  function FindIndex(polls: seq<Poll>, id: string): (r: Option<nat>)
    ensures r.Some? ==> r.value < |polls| && polls[r.value].id == id
    decreases |polls|
  {
    if polls == [] then None
    else if polls[0].id == id then Some(0)
    else match FindIndex(polls[1..], id)
      case None => None
      case Some(k) => Some(k + 1)
  }

  lemma {:induction false} FindIndexSpec(polls: seq<Poll>, id: string)
    ensures FindIndex(polls, id).None? <==> forall i :: 0 <= i < |polls| ==> polls[i].id != id
    ensures FindIndex(polls, id).Some? ==> forall j :: 0 <= j < FindIndex(polls, id).value ==> polls[j].id != id
    decreases |polls|
  {
    if polls != [] && polls[0].id != id {
      FindIndexSpec(polls[1..], id);
      assert forall i :: 1 <= i < |polls| ==> polls[i] == polls[1..][i - 1];
    }
  }

  /** `polls.find(p => p.id === id)`, with None for undefined: it yields the
      element at the index `findIndex` gives. */
  function Find(polls: seq<Poll>, id: string): (r: Option<Poll>)
    ensures r.None? <==> FindIndex(polls, id).None?
    ensures r.Some? ==> r.value == polls[FindIndex(polls, id).value]
    decreases |polls|
  {
    if polls == [] then None
    else if polls[0].id == id then Some(polls[0])
    else Find(polls[1..], id)
  }

  /** The filter keeps exactly the polls of that segment, in their original order. */
  lemma {:induction false} FilterSegmentSpec(polls: seq<Poll>, segment: int)
    ensures forall p :: p in FilterSegment(polls, segment) <==> p in polls && p.segment == segment
    ensures IsSubsequence(FilterSegment(polls, segment), polls)
    decreases |polls|
  {
    if polls != [] {
      FilterSegmentSpec(polls[1..], segment);
    }
  }

  /** `getSegmentPolls`: the catalogue polls of one segment, in catalogue
      order; SegmentSizes gives each segment's block. */
  function GetSegmentPolls(segment: int): (r: seq<Poll>)
    ensures forall p :: p in r <==> p in GameData && p.segment == segment
    ensures IsSubsequence(r, GameData)
  {
    FilterSegmentSpec(GameData, segment);
    FilterSegment(GameData, segment)
  }

  /** `getTotalPolls`: the number of polls in the catalogue. */
  function GetTotalPolls(): (r: nat)
    ensures r == 19
  {
    |GameData|
  }

  function GetPollById(id: string): (r: Option<Poll>)
    ensures r.None? <==> forall i :: 0 <= i < |GameData| ==> GameData[i].id != id
    ensures r.Some? ==> r.value.id == id && r.value in GameData
  {
    FindIndexSpec(GameData, id);
    Find(GameData, id)
  }

  // ---------------------------------------------------------------------------
  // Facts about the catalogue

  lemma {:induction false} FilterAppend(a: seq<Poll>, b: seq<Poll>, segment: int)
    ensures FilterSegment(a + b, segment) == FilterSegment(a, segment) + FilterSegment(b, segment)
    decreases |a|
  {
    if a == [] {
      assert a + b == b;
    } else {
      assert (a + b)[1..] == a[1..] + b;
      FilterAppend(a[1..], b, segment);
    }
  }

  lemma {:induction false} FilterUniform(polls: seq<Poll>, segment: int, keep: bool)
    requires forall i :: 0 <= i < |polls| ==> (polls[i].segment == segment) == keep
    ensures FilterSegment(polls, segment) == if keep then polls else []
    decreases |polls|
  {
    if polls != [] {
      FilterUniform(polls[1..], segment, keep);
    }
  }

  /** The catalogue is laid out in segment order: polls 0-2 are segment 1,
      3-9 segment 2, 10-14 segment 3 and 15-18 segment 4. */
  lemma SegmentLayout()
    ensures |GameData| == 19
    ensures forall i :: 0 <= i < 3 ==> GameData[i].segment == 1
    ensures forall i :: 3 <= i < 10 ==> GameData[i].segment == 2
    ensures forall i :: 10 <= i < 15 ==> GameData[i].segment == 3
    ensures forall i :: 15 <= i < 19 ==> GameData[i].segment == 4
  {
  }

  /** In a list sorted by segment, the filter for one segment yields exactly
      the block of that segment. */
  lemma SegmentBlock(polls: seq<Poll>, lo: nat, hi: nat, segment: int)
    requires lo <= hi <= |polls|
    requires forall i :: 0 <= i < lo ==> polls[i].segment < segment
    requires forall i :: lo <= i < hi ==> polls[i].segment == segment
    requires forall i :: hi <= i < |polls| ==> polls[i].segment > segment
    ensures FilterSegment(polls, segment) == polls[lo..hi]
    ensures |FilterSegment(polls, segment)| == hi - lo
  {
    var pre, block, post := polls[..lo], polls[lo..hi], polls[hi..];
    assert polls == pre + block + post;
    FilterAppend(pre + block, post, segment);
    FilterAppend(pre, block, segment);
    FilterUniform(pre, segment, false);
    FilterUniform(block, segment, true);
    FilterUniform(post, segment, false);
  }

  /** Each segment's polls are one contiguous block of the catalogue: polls
      0-2 (segment 1), 3-9 (segment 2), 10-14 (segment 3) and 15-18 (segment
      4), so the segments hold 3, 7, 5 and 4 polls as their comments announce. */
  lemma SegmentSizes(segment: int, lo: nat, hi: nat)
    requires (segment, lo, hi) in {(1, 0, 3), (2, 3, 10), (3, 10, 15), (4, 15, 19)}
    ensures hi <= |GameData|
    ensures GetSegmentPolls(segment) == GameData[lo..hi]
    ensures |GetSegmentPolls(segment)| == hi - lo
  {
    SegmentLayout();
    SegmentBlock(GameData, lo, hi, segment);
  }

  lemma DistinctIds()
    ensures forall i, j :: 0 <= i < j < |GameData| ==> GameData[i].id != GameData[j].id
  {
  }

  /** With distinct ids, looking a poll up by its own id finds that poll. */
  lemma FindOwnId(polls: seq<Poll>, i: nat)
    requires i < |polls|
    requires forall a, b :: 0 <= a < b < |polls| ==> polls[a].id != polls[b].id
    ensures Find(polls, polls[i].id) == Some(polls[i])
  {
    FindIndexSpec(polls, polls[i].id);
    var k := FindIndex(polls, polls[i].id);
    assert k.Some?;
    assert !(k.value < i) && !(i < k.value);
  }

  lemma GetPollByIdIsLeftInverse()
    ensures forall i :: 0 <= i < |GameData| ==> GetPollById(GameData[i].id) == Some(GameData[i])
  {
    DistinctIds();
    forall i | 0 <= i < |GameData|
      ensures GetPollById(GameData[i].id) == Some(GameData[i])
    {
      FindOwnId(GameData, i);
    }
  }

  /** Every poll offers at least one option and no option twice. */
  lemma DistinctOptions()
    ensures forall i :: 0 <= i < |GameData| ==>
      && |GameData[i].options| > 0
      && forall a, b :: 0 <= a < b < |GameData[i].options| ==> GameData[i].options[a] != GameData[i].options[b]
  {
  }

  /** Every poll marks at least one label correct, each of them one of its options. */
  lemma CorrectLabelsAreOptions()
    ensures forall i :: 0 <= i < |GameData| ==>
      && |CorrectLabels(GameData[i].correctAnswer)| > 0
      && forall c :: c in CorrectLabels(GameData[i].correctAnswer) ==> c in GameData[i].options
  {
  }
}
