/// The value records of the markdown highlighter and its comment-region query.
///
/// The highlighter's implementation file is not part of this model; what is
/// modelled is what its header declares and documents: the per-block state
/// enum, the highlight runs, the fenced-code-block record, the HTML comment
/// region with its inclusive `contains`, and the documented contracts of the
/// "block totally inside a comment" query and of the code-block update.
module MarkdownHighlighter {
  import opened Basics

  // ---------------------------------------------------------------------------
  // Per-block state
  // ---------------------------------------------------------------------------

  /// The state a text block is left in: plain text, part of a fenced code
  /// block, or inside an HTML comment region.
  datatype HighlightBlockState = Normal | CodeBlock | Comment

  /// The integer value of each enumerator: `Normal` is 0 and the others follow
  /// in declaration order.
  function BlockStateValue(s: HighlightBlockState): (n: nat)
    ensures n < 3
    ensures n == 0 <==> s == Normal
  {
    match s
    case Normal => 0
    case CodeBlock => 1
    case Comment => 2
  }

  /// The enumerator with integer value `n`, if there is one.
  function BlockStateFromValue(n: int): (r: Option<HighlightBlockState>)
    ensures r.Some? <==> 0 <= n < 3
  {
    if n == 0 then Some(Normal)
    else if n == 1 then Some(CodeBlock)
    else if n == 2 then Some(Comment)
    else None
  }

  /// The enum has exactly three values, numbered in declaration order
  /// (Normal 0, CodeBlock 1, Comment 2) without gaps or repetitions:
  /// converting a state to its value and back is the identity, and so is the
  /// reverse direction on 0..2.
  lemma BlockStateValueRoundTrip(s: HighlightBlockState, n: int)
    ensures BlockStateValue(Normal) == 0 && BlockStateValue(CodeBlock) == 1 && BlockStateValue(Comment) == 2
    ensures BlockStateFromValue(BlockStateValue(s)) == Some(s)
    ensures 0 <= n < 3 ==> BlockStateValue(BlockStateFromValue(n).value) == n
  {
  }

  // ---------------------------------------------------------------------------
  // Highlight runs and fenced code blocks
  // ---------------------------------------------------------------------------

  /// One continuous run of one markdown style inside a text block: `start`
  /// and `length` are offsets local to the block, `styleIndex` selects one of
  /// the configured highlighting styles. The C++ fields are `unsigned long`
  /// and `unsigned int`; here they are unbounded naturals.
  datatype HLUnit = HLUnit(start: nat, length: nat, styleIndex: nat)

  /// A run inside a block whose style is named by a string, as returned by the
  /// external code-block highlighter.
  datatype HLUnitStyle = HLUnitStyle(start: nat, length: nat, style: string)

  /// A fenced code block: its start position in the document, its first and
  /// last block numbers, its language tag and its text.
  datatype VCodeBlock = VCodeBlock(
    startPos: int32,
    startBlock: int32,
    endBlock: int32,
    lang: string,
    text: string)

  /// A highlight run in document coordinates with a string style name.
  datatype HLUnitPos = HLUnitPos(position: int32, length: int32, style: string)

  /// The default-constructed run: position and length are the sentinel -1 and
  /// the style name is the empty string.
  function DefaultHLUnitPos(): (u: HLUnitPos)
    ensures u.position == -1 && u.length == -1
    ensures u.style == ""
  {
    HLUnitPos(-1, -1, "")
  }

  /// The three-argument constructor keeps its arguments unchanged.
  function NewHLUnitPos(position: int32, length: int32, style: string): (u: HLUnitPos)
    ensures u.position == position && u.length == length && u.style == style
  {
    HLUnitPos(position, length, style)
  }

  /// Whether the code-block update found something to highlight: it reports
  /// true when the parse produced at least one fenced code block (and the
  /// highlighter will re-highlight later) and false when it produced none.
  /// How the blocks are extracted from the parse result is not modelled; the
  /// blocks found are the argument.
  function UpdateCodeBlocks(found: seq<VCodeBlock>): (pending: bool)
    ensures pending <==> exists b :: b in found
    ensures !pending <==> found == []
  {
    if found == [] then false
    else assert found[0] in found; true
  }

  // ---------------------------------------------------------------------------
  // HTML comment regions
  // ---------------------------------------------------------------------------

  /// An HTML comment region of the document: both `startPos` and `endPos`
  /// are positions inside the region.
  datatype VCommentRegion = VCommentRegion(startPos: int32, endPos: int32) {

    /// Whether position `p` lies in this region. Only a region whose start is
    /// not after its end contains anything, and such a region contains both
    /// of its bounds.
    predicate Contains(p: int32): (b: bool)
      ensures b ==> startPos <= endPos
      ensures startPos <= endPos && (p == startPos || p == endPos) ==> b
    {
      startPos <= p && endPos >= p
    }
  }

  /// The default-constructed region is [0, 0]: it contains position 0 and no
  /// other.
  function DefaultCommentRegion(): (r: VCommentRegion)
    ensures r.startPos == 0 && r.endPos == 0
    ensures forall p: int32 :: r.Contains(p) <==> p == 0
  {
    VCommentRegion(0, 0)
  }

  /// The two-argument constructor stores both bounds unchanged; the region
  /// holds exactly the positions from `start` to `end`, both included.
  function NewCommentRegion(start: int32, end: int32): (r: VCommentRegion)
    ensures r.startPos == start && r.endPos == end
    ensures forall p: int32 :: r.Contains(p) <==> start <= p <= end
  {
    VCommentRegion(start, end)
  }

  /// Both bounds of a non-empty region belong to it; a region whose start is
  /// after its end contains nothing; a region with equal bounds contains
  /// exactly that one position.
  lemma ContainsBounds(r: VCommentRegion)
    ensures r.startPos <= r.endPos ==> r.Contains(r.startPos) && r.Contains(r.endPos)
    ensures r.startPos > r.endPos ==> forall p: int32 :: !r.Contains(p)
    ensures r.startPos == r.endPos ==> forall p: int32 :: r.Contains(p) <==> p == r.startPos
  {
  }

  /// A region that contains two positions contains every position between
  /// them.
  lemma Convexity(r: VCommentRegion, a: int32, b: int32)
    requires r.Contains(a) && r.Contains(b)
    ensures forall p: int32 :: a <= p <= b ==> r.Contains(p)
  {
  }

  /// Region `r` covers every position of the block whose first and last
  /// positions are `first` and `last`.
  ghost predicate CoversBlock(r: VCommentRegion, first: int32, last: int32) {
    forall p: int32 :: first <= p <= last ==> r.Contains(p)
  }

  /// The block lies totally inside one of `regions`.
  ghost predicate InsideSomeRegion(regions: seq<VCommentRegion>, first: int32, last: int32) {
    exists i :: 0 <= i < |regions| && CoversBlock(regions[i], first, last)
  }

  /// For a block of at least one position, covering it is the same as
  /// containing its two end positions.
  lemma CoversBlockIffEndpoints(r: VCommentRegion, first: int32, last: int32)
    requires first <= last
    ensures CoversBlock(r, first, last) <==> r.Contains(first) && r.Contains(last)
  {
    if r.Contains(first) && r.Contains(last) {
      Convexity(r, first, last);
    }
  }

  /// Whether the text block spanning positions `first` to `last` (a text
  /// block always holds at least one position) is totally inside one of the
  /// HTML comment regions: some region contains both of its end positions,
  /// which by convexity means that region covers the whole block.
  function IsBlockInsideCommentRegion(regions: seq<VCommentRegion>, first: int32, last: int32): (inside: bool)
    requires first <= last
    ensures inside <==> InsideSomeRegion(regions, first, last)
    decreases |regions|
  {
    if regions == [] then false
    else
      var r := regions[0];
      CoversBlockIffEndpoints(r, first, last);
      var rest := IsBlockInsideCommentRegion(regions[1..], first, last);
      assert rest ==> InsideSomeRegion(regions, first, last) by {
        if rest {
          var i :| 0 <= i < |regions[1..]| && CoversBlock(regions[1..][i], first, last);
          assert CoversBlock(regions[i + 1], first, last);
        }
      }
      assert InsideSomeRegion(regions, first, last) ==> CoversBlock(r, first, last) || rest by {
        if InsideSomeRegion(regions, first, last) {
          var i :| 0 <= i < |regions| && CoversBlock(regions[i], first, last);
          if i > 0 {
            assert regions[1..][i - 1] == regions[i];
          }
        }
      }
      (r.Contains(first) && r.Contains(last)) || rest
  }

  /// A block that every region misses at least one position of is not inside
  /// a comment region, however much it overlaps them.
  lemma PartialOverlapIsNotInside(regions: seq<VCommentRegion>, first: int32, last: int32)
    requires first <= last
    requires forall i :: 0 <= i < |regions| ==>
               exists p: int32 :: first <= p <= last && !regions[i].Contains(p)
    ensures !IsBlockInsideCommentRegion(regions, first, last)
  {
  }

  /// A block is inside a comment region as soon as one region contains both
  /// its end positions, wherever that region is in the list.
  lemma EndpointsInRegionIsInside(regions: seq<VCommentRegion>, i: nat, first: int32, last: int32)
    requires first <= last
    requires i < |regions| && regions[i].Contains(first) && regions[i].Contains(last)
    ensures IsBlockInsideCommentRegion(regions, first, last)
  {
    CoversBlockIffEndpoints(regions[i], first, last);
  }
}
