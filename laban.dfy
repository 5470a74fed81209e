/** The block decoder: one five-character body-part code
    `[mode][direction][level][flexion][rotation]` becomes a descriptor. */
module Laban {

  /** Position 0: whether the body part bears weight or moves freely. */
  datatype Mode = Support | Gesture | Unknown
  {
    function Label(): string {
      match this
      case Support => "support"
      case Gesture => "gesture"
      case Unknown => "unknown"
    }
  }

  /** Position 1: the ten directions of the numeric keypad layout, or none. */
  datatype Direction =
    | Airborne | BackLeft | Backward | BackRight | Left
    | Place | Right | FwdLeft | Forward | FwdRight
    | NoDirection
  {
    function Label(): string {
      match this
      case Airborne => "airborne"
      case BackLeft => "back_left"
      case Backward => "backward"
      case BackRight => "back_right"
      case Left => "left"
      case Place => "place"
      case Right => "right"
      case FwdLeft => "fwd_left"
      case Forward => "forward"
      case FwdRight => "fwd_right"
      case NoDirection => "none"
    }
  }

  /** Position 2. */
  datatype Level = High | Middle | Low | NoLevel
  {
    function Label(): string {
      match this
      case High => "high"
      case Middle => "middle"
      case Low => "low"
      case NoLevel => "none"
    }
  }

  /** Position 3. */
  datatype Flexion = Flexed | Extended | Natural
  {
    function Label(): string {
      match this
      case Flexed => "flexed"
      case Extended => "extended"
      case Natural => "natural"
    }
  }

  /** Position 4. */
  datatype Rotation = Outward | Inward | Natural
  {
    function Label(): string {
      match this
      case Outward => "outward"
      case Inward => "inward"
      case Natural => "natural"
    }
  }

  /** The decoded state of one body part. `Hold` and `Neutral` carry only
      their action; every other block carries all five fields. */
  datatype Descriptor =
    | Hold
    | Neutral
    | Posture(action: Mode, direction: Direction, level: Level, flexion: Flexion, rotation: Rotation)

  /** The descriptor as the dictionary the converter builds: its keys and
      string values, in insertion order. */
  function Entries(d: Descriptor): (e: seq<(string, string)>)
    ensures |e| == (if d.Posture? then 5 else 1)
    ensures e[0].0 == "action"
    ensures d.Posture? ==> [e[1].0, e[2].0, e[3].0, e[4].0] == ["direction", "level", "flexion", "rotation"]
  {
    match d
    case Hold => [("action", "hold")]
    case Neutral => [("action", "neutral")]
    case Posture(m, dir, lvl, fl, rot) =>
      [("action", m.Label()), ("direction", dir.Label()), ("level", lvl.Label()),
       ("flexion", fl.Label()), ("rotation", rot.Label())]
  }

  /** Reading `block[index]` past the end of a block: Python's IndexError. */
  datatype DecodeError = IndexOutOfRange(index: nat)

  datatype Result<+T> = Ok(value: T) | Err(error: DecodeError)
  {
    predicate IsFailure() { Err? }

    function PropagateFailure<U>(): Result<U>
      requires Err?
    {
      Err(error)
    }

    function Extract(): T
      requires Ok?
    {
      value
    }
  }

  /** The two spellings of a held body part. */
  const HoldDots: string := "....."
  const HoldSpaces: string := "     "

  /** The `modes` table; any other character is `unknown`. */
  function DecodeMode(c: char): (m: Mode)
    ensures m != Unknown ==> ModeCode(m) == c
    ensures m == Unknown <==> c != 's' && c != 'g'
  {
    match c
    case 's' => Support
    case 'g' => Gesture
    case _ => Unknown
  }

  /** The `directions` table; any other character is `none`. */
  function DecodeDirection(c: char): (d: Direction)
    ensures d != NoDirection ==> DirectionCode(d) == c
    ensures d == NoDirection <==> !('0' <= c <= '9')
  {
    match c
    case '8' => Forward
    case '2' => Backward
    case '4' => Left
    case '6' => Right
    case '7' => FwdLeft
    case '9' => FwdRight
    case '1' => BackLeft
    case '3' => BackRight
    case '5' => Place
    case '0' => Airborne
    case _ => NoDirection
  }

  /** The `levels` table; any other character is `none`. */
  function DecodeLevel(c: char): (l: Level)
    ensures l != NoLevel ==> LevelCode(l) == c
    ensures l == NoLevel <==> c !in "^-_"
  {
    match c
    case '^' => High
    case '-' => Middle
    case '_' => Low
    case _ => NoLevel
  }

  /** `v` is flexed, `!` extended, anything else natural. */
  function DecodeFlexion(c: char): (f: Flexion)
    ensures f != Flexion.Natural ==> FlexionCode(f) == c
    ensures f == Flexion.Natural <==> c != 'v' && c != '!'
  {
    if c == 'v' then Flexed else if c == '!' then Extended else Flexion.Natural
  }

  /** `>` is outward, `<` inward, anything else natural. */
  function DecodeRotation(c: char): (r: Rotation)
    ensures r != Rotation.Natural ==> RotationCode(r) == c
    ensures r == Rotation.Natural <==> c != '>' && c != '<'
  {
    if c == '>' then Outward else if c == '<' then Inward else Rotation.Natural
  }

  /** The character each value is written with; a default value is written
      with a character that no table recognises. */
  function ModeCode(m: Mode): char {
    match m
    case Support => 's'
    case Gesture => 'g'
    case Unknown => '?'
  }

  function DirectionCode(d: Direction): char {
    match d
    case Airborne => '0'
    case BackLeft => '1'
    case Backward => '2'
    case BackRight => '3'
    case Left => '4'
    case Place => '5'
    case Right => '6'
    case FwdLeft => '7'
    case Forward => '8'
    case FwdRight => '9'
    case NoDirection => '.'
  }

  function LevelCode(l: Level): char {
    match l
    case High => '^'
    case Middle => '-'
    case Low => '_'
    case NoLevel => '.'
  }

  function FlexionCode(f: Flexion): char {
    match f
    case Flexed => 'v'
    case Extended => '!'
    case Natural => '.'
  }

  function RotationCode(r: Rotation): char {
    match r
    case Outward => '>'
    case Inward => '<'
    case Natural => '.'
  }

  /** `parse_laban_block`. A block that is neither a hold nor starts with
      `X` is read position by position, and reading a position the block
      does not have is an error. */
  function ParseBlock(block: string): (r: Result<Descriptor>)
    ensures r == Ok(Hold) <==> block == HoldDots || block == HoldSpaces
    ensures r == Ok(Neutral) <==> block != HoldDots && block != HoldSpaces && |block| > 0 && block[0] == 'X'
    ensures r.Err? <==> block != HoldDots && block != HoldSpaces && (|block| == 0 || block[0] != 'X') && |block| < 5
    ensures r.Err? ==> r.error == IndexOutOfRange(|block|)
    ensures r.Ok? && r.value.Posture? ==>
      && |block| >= 5
      && r.value == Posture(DecodeMode(block[0]), DecodeDirection(block[1]), DecodeLevel(block[2]),
                            DecodeFlexion(block[3]), DecodeRotation(block[4]))
  {
    if block == HoldDots || block == HoldSpaces then Ok(Hold)
    else if |block| > 0 && block[0] == 'X' then Ok(Neutral)
    else if |block| < 5 then Err(IndexOutOfRange(|block|))
    else Ok(Posture(DecodeMode(block[0]), DecodeDirection(block[1]), DecodeLevel(block[2]),
                    DecodeFlexion(block[3]), DecodeRotation(block[4])))
  }

  /** The canonical five-character spelling of a descriptor. */
  function Spell(d: Descriptor): (block: string)
    ensures |block| == 5
  {
    match d
    case Hold => HoldDots
    case Neutral => "X...."
    case Posture(m, dir, lvl, fl, rot) =>
      [ModeCode(m), DirectionCode(dir), LevelCode(lvl), FlexionCode(fl), RotationCode(rot)]
  }

  /** Every descriptor is the decoding of its spelling: the decoder reaches
      all 3 * 11 * 4 * 3 * 3 postures, and no two spellings collide. */
  lemma ParseSpell(d: Descriptor)
    ensures ParseBlock(Spell(d)) == Ok(d)
  {
    if d.Posture? {
      var b := Spell(d);
      assert b[0] in "sg?";
      assert b != HoldDots && b != HoldSpaces by { assert b[0] != '.' && b[0] != ' '; }
    }
  }

  /** Each field of a positional descriptor depends only on the character
      at its own position. */
  lemma FieldsArePositional(b1: string, b2: string, i: nat)
    requires ParseBlock(b1).Ok? && ParseBlock(b1).value.Posture?
    requires ParseBlock(b2).Ok? && ParseBlock(b2).value.Posture?
    requires i < 5 && b1[i] == b2[i]
    ensures var p1, p2 := ParseBlock(b1).value, ParseBlock(b2).value;
      (i == 0 ==> p1.action == p2.action)
      && (i == 1 ==> p1.direction == p2.direction)
      && (i == 2 ==> p1.level == p2.level)
      && (i == 3 ==> p1.flexion == p2.flexion)
      && (i == 4 ==> p1.rotation == p2.rotation)
  {
  }

  /** Characters after position 4 are never read, unless they are what
      keeps the block from being exactly one of the two hold spellings. */
  lemma TailIgnored(block: string, tail: string)
    requires |block| == 5 && block != HoldDots && block != HoldSpaces
    ensures ParseBlock(block + tail) == ParseBlock(block)
  {
    assert (block + tail)[..5] == block;
    if tail != [] {
      assert |block + tail| > 5;
    }
  }

  /** Six dots are not a hold: the hold test compares the whole block. */
  lemma SixDotsNotHold()
    ensures ParseBlock("......") == Ok(Posture(Unknown, NoDirection, NoLevel, Flexion.Natural, Rotation.Natural))
  {
  }
}
