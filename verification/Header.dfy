/** The attribute word of a node header (src/node.rs:43-245): colour, flags and type id packed in 32 bits. */
module Header {
  import opened Marking

  const COLOR_MASK: bv32 := 0x03
  const ARENA_ALLOC: bv32 := 0x04
  const GRAY_LISTED: bv32 := 0x08
  const ROOT: bv32 := 0x20
  const LOCAL: bv32 := 0x40
  const TRAVERSE_VISITED: bv32 := 0x80

  /** The debug sentinel every header is created with (src/mem.rs:113, 167). */
  const SENTINEL: bv32 := 0xFF00_0000

  function Bits(c: Color): bv32 {
    match c case White => 0 case Gray => 1 case Black => 2
  }

  /** The source's `try_from` fails on 3; the words it builds never hold it. */
  predicate HasColor(w: bv32) {
    w & COLOR_MASK != 3
  }

  function ColorOf(w: bv32): Color
    requires HasColor(w)
  {
    if w & COLOR_MASK == 0 then White else if w & COLOR_MASK == 1 then Gray else Black
  }

  function SetColor(w: bv32, c: Color): bv32 {
    (w & !COLOR_MASK) | Bits(c)
  }

  predicate IsFlag(f: bv32) {
    f == ARENA_ALLOC || f == GRAY_LISTED || f == ROOT || f == LOCAL || f == TRAVERSE_VISITED
  }

  predicate Contains(w: bv32, f: bv32) {
    w & f == f
  }

  function Insert(w: bv32, f: bv32): bv32 {
    w | f
  }

  function Remove(w: bv32, f: bv32): bv32 {
    w & !f
  }

  /** `is_root_or_local`'s single test of two bits. */
  predicate RootOrLocal(w: bv32) {
    w & (ROOT | LOCAL) != 0
  }

  function TypeBits(w: bv32): bv32 {
    (w & 0xFF00) >> 8
  }

  function NewWord(gcType: bv32): bv32 {
    SENTINEL | (gcType << 8)
  }

  lemma LowBits(w: bv32, b: bv32)
    requires b < 3
    ensures ((w & !3) | b) & 3 == b
  {
  }

  lemma HighBits(w: bv32, b: bv32, mask: bv32)
    requires b < 3 && mask & 3 == 0
    ensures ((w & !3) | b) & mask == w & mask
  {
  }

  /** Setting the colour sets the colour ... */
  lemma SetColorSets(w: bv32, c: Color)
    ensures HasColor(SetColor(w, c)) && ColorOf(SetColor(w, c)) == c
  {
    LowBits(w, Bits(c));
  }

  /** ... and nothing else. */
  lemma SetColorKeeps(w: bv32, c: Color, f: bv32)
    requires IsFlag(f)
    ensures Contains(SetColor(w, c), f) <==> Contains(w, f)
    ensures TypeBits(SetColor(w, c)) == TypeBits(w)
  {
    HighBits(w, Bits(c), f);
    HighBits(w, Bits(c), 0xFF00);
  }

  lemma OrMask(w: bv32, f: bv32, mask: bv32)
    requires f & mask == 0
    ensures (w | f) & mask == w & mask && (w & !f) & mask == w & mask
  {
  }

  lemma OwnBit(w: bv32, f: bv32)
    ensures (w | f) & f == f && (w & !f) & f == 0
  {
  }

  /** Inserting or removing a flag changes that flag ... */
  lemma FlagSets(w: bv32, f: bv32)
    requires IsFlag(f)
    ensures Contains(Insert(w, f), f) && !Contains(Remove(w, f), f)
  {
    OwnBit(w, f);
  }

  /** ... no other flag ... */
  lemma FlagKeepsFlags(w: bv32, f: bv32, f': bv32)
    requires IsFlag(f) && IsFlag(f') && f != f'
    ensures (Contains(Insert(w, f), f') <==> Contains(w, f')) && (Contains(Remove(w, f), f') <==> Contains(w, f'))
  {
    OrMask(w, f, f');
  }

  /** ... not the colour ... */
  lemma FlagKeepsColor(w: bv32, f: bv32)
    requires IsFlag(f) && HasColor(w)
    ensures HasColor(Insert(w, f)) && ColorOf(Insert(w, f)) == ColorOf(w)
    ensures HasColor(Remove(w, f)) && ColorOf(Remove(w, f)) == ColorOf(w)
  {
    OrMask(w, f, 3);
  }

  /** ... and not the type. */
  lemma FlagKeepsType(w: bv32, f: bv32)
    requires IsFlag(f)
    ensures TypeBits(Insert(w, f)) == TypeBits(w) && TypeBits(Remove(w, f)) == TypeBits(w)
  {
    OrMask(w, f, 0xFF00);
  }

  /** The combined test is the disjunction of the two flags. */
  lemma RootOrLocalIff(w: bv32)
    ensures RootOrLocal(w) <==> Contains(w, ROOT) || Contains(w, LOCAL)
  {
  }

  /** A new header is White, carries its type and no flag. */
  lemma NewWordOk(gcType: bv32)
    requires gcType < 0x100
    ensures HasColor(NewWord(gcType)) && ColorOf(NewWord(gcType)) == White && TypeBits(NewWord(gcType)) == gcType
    ensures !Contains(NewWord(gcType), GRAY_LISTED) && !Contains(NewWord(gcType), ROOT)
    ensures !Contains(NewWord(gcType), LOCAL) && !Contains(NewWord(gcType), TRAVERSE_VISITED)
    ensures !Contains(NewWord(gcType), ARENA_ALLOC)
  {
  }

  // ---- the word, decoded ----

  datatype View = View(color: Color, listed: bool, root: bool, local: bool, visited: bool, arena: bool, gcType: bv32)

  function Decode(w: bv32): View
    requires HasColor(w)
  {
    View(ColorOf(w), Contains(w, GRAY_LISTED), Contains(w, ROOT), Contains(w, LOCAL), Contains(w, TRAVERSE_VISITED),
         Contains(w, ARENA_ALLOC), TypeBits(w))
  }

  lemma DecodeSetColor(w: bv32, c: Color)
    requires HasColor(w)
    ensures HasColor(SetColor(w, c)) && Decode(SetColor(w, c)) == Decode(w).(color := c)
  {
    SetColorSets(w, c);
    SetColorKeeps(w, c, GRAY_LISTED);
    SetColorKeeps(w, c, ROOT);
    SetColorKeeps(w, c, LOCAL);
    SetColorKeeps(w, c, TRAVERSE_VISITED);
    SetColorKeeps(w, c, ARENA_ALLOC);
    hide SetColor, ColorOf, Contains, TypeBits;
  }

  /** What setting or clearing flag `f` does to the decoded word. */
  function WithFlag(v: View, f: bv32, on: bool): View {
    if f == GRAY_LISTED then v.(listed := on)
    else if f == ROOT then v.(root := on)
    else if f == LOCAL then v.(local := on)
    else if f == TRAVERSE_VISITED then v.(visited := on)
    else if f == ARENA_ALLOC then v.(arena := on)
    else v
  }

  lemma DecodeFlag(w: bv32, f: bv32)
    requires HasColor(w) && IsFlag(f)
    ensures HasColor(Insert(w, f)) && Decode(Insert(w, f)) == WithFlag(Decode(w), f, true)
    ensures HasColor(Remove(w, f)) && Decode(Remove(w, f)) == WithFlag(Decode(w), f, false)
  {
    FlagSets(w, f);
    FlagKeepsColor(w, f);
    FlagKeepsType(w, f);
    if f != GRAY_LISTED { FlagKeepsFlags(w, f, GRAY_LISTED); }
    if f != ROOT { FlagKeepsFlags(w, f, ROOT); }
    if f != LOCAL { FlagKeepsFlags(w, f, LOCAL); }
    if f != TRAVERSE_VISITED { FlagKeepsFlags(w, f, TRAVERSE_VISITED); }
    if f != ARENA_ALLOC { FlagKeepsFlags(w, f, ARENA_ALLOC); }
    hide Insert, Remove, ColorOf, Contains, TypeBits;
  }

  lemma DecodeNew(gcType: bv32, arena: bool)
    requires gcType < 0x100
    ensures var w := if arena then Insert(NewWord(gcType), ARENA_ALLOC) else NewWord(gcType);
            HasColor(w) && Decode(w) == View(White, false, false, false, false, arena, gcType)
  {
    NewWordOk(gcType);
    DecodeFlag(NewWord(gcType), ARENA_ALLOC);
  }
}
