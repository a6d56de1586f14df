/** JSON values, their serialized text, and the grammar of RFC 8259 as derivation trees. */
module Json {
  import opened Texts

  /** A parsed document. `Num` keeps the literal of a number that has a fraction or an exponent. */
  datatype Json =
    | Null
    | Bool(value: bool)
    | Int(n: int)
    | Num(literal: Literal)
    | Str(text: Text)
    | Arr(items: seq<Json>)
    | Obj(members: map<Text, Json>)

  datatype Literal = Literal(negative: bool, whole: Text, fraction: Option<Text>, exponent: Option<Exponent>)
  datatype Exponent = Exponent(marker: Unit, sign: Text, digits: Text)

  const QUOTE: Unit := 0x22
  const BACKSLASH: Unit := 0x5C
  const SLASH: Unit := 0x2F
  const COMMA: Unit := 0x2C
  const COLON: Unit := 0x3A
  const OPEN_ARRAY: Unit := 0x5B
  const CLOSE_ARRAY: Unit := 0x5D
  const OPEN_OBJECT: Unit := 0x7B
  const CLOSE_OBJECT: Unit := 0x7D
  const PLUS: Unit := 0x2B
  const MINUS: Unit := 0x2D
  const POINT: Unit := 0x2E
  const LETTER_U: Unit := 0x75

  const NULL_WORD: Text := [0x6E, 0x75, 0x6C, 0x6C]
  const TRUE_WORD: Text := [0x74, 0x72, 0x75, 0x65]
  const FALSE_WORD: Text := [0x66, 0x61, 0x6C, 0x73, 0x65]

  predicate IsDigit(u: Unit) { 0x30 <= u <= 0x39 }
  predicate IsBlank(u: Unit) { u == 0x20 || u == 0x09 || u == 0x0D || u == 0x0A }
  predicate IsMarker(u: Unit) { u == 0x65 || u == 0x45 }
  predicate Digits(t: Text) { forall i :: 0 <= i < |t| ==> IsDigit(t[i]) }
  predicate Blank(t: Text) { forall i :: 0 <= i < |t| ==> IsBlank(t[i]) }

  // ---------------------------------------------------------------- numbers

  /** `number = [ minus ] int [ frac ] [ exp ]`, section 6 of RFC 8259. */
  predicate WellFormedLiteral(l: Literal) {
    && Digits(l.whole) && l.whole != [] && (l.whole[0] == 0x30 ==> |l.whole| == 1)
    && (l.fraction.Some? ==> Digits(l.fraction.value) && l.fraction.value != [])
    && (l.exponent.Some? ==> WellFormedExponent(l.exponent.value))
  }

  predicate WellFormedExponent(e: Exponent) {
    IsMarker(e.marker) && (e.sign == [] || e.sign == [PLUS] || e.sign == [MINUS]) && Digits(e.digits) && e.digits != []
  }

  predicate IsInteger(l: Literal) { l.fraction.None? && l.exponent.None? }

  function FractionText(f: Option<Text>): Text { if f.Some? then [POINT] + f.value else [] }
  function ExponentText(e: Option<Exponent>): Text {
    if e.Some? then [e.value.marker] + e.value.sign + e.value.digits else []
  }
  function LiteralText(l: Literal): Text {
    (if l.negative then [MINUS] else []) + l.whole + FractionText(l.fraction) + ExponentText(l.exponent)
  }

  function DigitsValue(t: Text): int {
    if t == [] then 0 else DigitsValue(t[..|t| - 1]) * 10 + (t[|t| - 1] as int - 0x30)
  }

  function IntegerValue(l: Literal): int {
    if l.negative then -DigitsValue(l.whole) else DigitsValue(l.whole)
  }

  predicate IsInt64(n: int) { -0x8000_0000_0000_0000 <= n <= 0x7FFF_FFFF_FFFF_FFFF }

  function Power(base: int, exponent: nat): int {
    if exponent == 0 then 1 else base * Power(base, exponent - 1)
  }

  /** Rounding to the nearest double gives an infinity: the magnitude is at least `2^1024 - 2^970`. */
  predicate Overflows(l: Literal) {
    var fraction := if l.fraction.Some? then l.fraction.value else [];
    var written := if l.exponent.Some? then DigitsValue(l.exponent.value.digits) else 0;
    var scale := (if l.exponent.Some? && l.exponent.value.sign == [MINUS] then -written else written) - |fraction|;
    var mantissa := DigitsValue(l.whole + fraction);
    var bound := (Power(2, 54) - 1) * Power(2, 970);
    if scale >= 0 then mantissa * Power(10, scale) >= bound else mantissa >= bound * Power(10, -scale)
  }

  /** The number reader keeps integers of 64 bits and other literals that a double can hold. */
  predicate AcceptableLiteral(l: Literal) {
    if IsInteger(l) then IsInt64(IntegerValue(l)) else !Overflows(l)
  }

  function NumberValue(l: Literal): Json {
    if IsInteger(l) then Int(IntegerValue(l)) else Num(l)
  }

  // ---------------------------------------------------------------- strings

  /** One character of a string literal: written plainly, as a two-character escape, or as `\uXXXX`. */
  datatype Piece = Plain(u: Unit) | Escape(code: Unit) | Hex(digits: Text)

  function Unescape(code: Unit): Option<Unit> {
    if code == QUOTE then Some(QUOTE)
    else if code == BACKSLASH then Some(BACKSLASH)
    else if code == SLASH then Some(SLASH)
    else if code == 0x62 then Some(0x08)
    else if code == 0x66 then Some(0x0C)
    else if code == 0x6E then Some(0x0A)
    else if code == 0x72 then Some(0x0D)
    else if code == 0x74 then Some(0x09)
    else None
  }

  function HexDigit(u: Unit): (d: Option<nat>)
    ensures d.Some? ==> d.value < 16
  {
    if 0x30 <= u <= 0x39 then Some(u - 0x30)
    else if 0x61 <= u <= 0x66 then Some(u - 0x57)
    else if 0x41 <= u <= 0x46 then Some(u - 0x37)
    else None
  }

  predicate HexDigits(t: Text) {
    |t| == 4 && HexDigit(t[0]).Some? && HexDigit(t[1]).Some? && HexDigit(t[2]).Some? && HexDigit(t[3]).Some?
  }

  function HexValue(t: Text): Unit
    requires HexDigits(t)
  {
    HexDigit(t[0]).value * 4096 + HexDigit(t[1]).value * 256 + HexDigit(t[2]).value * 16 + HexDigit(t[3]).value
  }

  predicate WellFormedPiece(p: Piece) {
    match p
    case Plain(u) => u >= 0x20 && u != QUOTE && u != BACKSLASH
    case Escape(code) => Unescape(code).Some?
    case Hex(digits) => HexDigits(digits)
  }

  function PieceText(p: Piece): Text {
    match p
    case Plain(u) => [u]
    case Escape(code) => [BACKSLASH, code]
    case Hex(digits) => [BACKSLASH, LETTER_U] + digits
  }

  function PieceUnit(p: Piece): Unit
    requires WellFormedPiece(p)
  {
    match p
    case Plain(u) => u
    case Escape(code) => Unescape(code).value
    case Hex(digits) => HexValue(digits)
  }

  predicate WellFormedPieces(ps: seq<Piece>) { forall p :: p in ps ==> WellFormedPiece(p) }

  function PiecesText(ps: seq<Piece>): Text {
    if ps == [] then [] else PieceText(ps[0]) + PiecesText(ps[1..])
  }

  function PiecesValue(ps: seq<Piece>): Text
    requires WellFormedPieces(ps)
  {
    if ps == [] then [] else [PieceUnit(ps[0])] + PiecesValue(ps[1..])
  }

  function Quoted(ps: seq<Piece>): Text { [QUOTE] + PiecesText(ps) + [QUOTE] }

  // ---------------------------------------------------------------- derivation trees

  /** A derivation of the grammar in sections 2 to 7 of RFC 8259, white space included. */
  datatype Tree =
    | NullTree
    | TrueTree
    | FalseTree
    | NumberTree(literal: Literal)
    | StringTree(pieces: seq<Piece>)
    | EmptyArrayTree(pad: Text)
    | ArrayTree(items: Items)
    | EmptyObjectTree(pad: Text)
    | ObjectTree(members: Members)
  datatype Slot = Slot(before: Text, value: Tree, after: Text)
  datatype Items = LastItem(slot: Slot) | NextItem(slot: Slot, rest: Items)
  datatype Pair = Pair(before: Text, key: seq<Piece>, middle: Text, slot: Slot)
  datatype Members = LastMember(pair: Pair) | NextMember(pair: Pair, rest: Members)

  predicate WellFormed(t: Tree) {
    match t
    case NumberTree(literal) => WellFormedLiteral(literal)
    case StringTree(pieces) => WellFormedPieces(pieces)
    case EmptyArrayTree(pad) => Blank(pad)
    case ArrayTree(items) => WellFormedItems(items)
    case EmptyObjectTree(pad) => Blank(pad)
    case ObjectTree(members) => WellFormedMembers(members)
    case _ => true
  }
  predicate WellFormedItems(its: Items) {
    && Blank(its.slot.before) && WellFormed(its.slot.value) && Blank(its.slot.after)
    && (its.NextItem? ==> WellFormedItems(its.rest))
  }
  predicate WellFormedMembers(ms: Members) {
    && Blank(ms.pair.before) && WellFormedPieces(ms.pair.key) && Blank(ms.pair.middle)
    && Blank(ms.pair.slot.before) && WellFormed(ms.pair.slot.value) && Blank(ms.pair.slot.after)
    && (ms.NextMember? ==> WellFormedMembers(ms.rest))
  }

  /** The text a derivation generates. */
  function Yield(t: Tree): Text {
    match t
    case NullTree => NULL_WORD
    case TrueTree => TRUE_WORD
    case FalseTree => FALSE_WORD
    case NumberTree(literal) => LiteralText(literal)
    case StringTree(pieces) => Quoted(pieces)
    case EmptyArrayTree(pad) => [OPEN_ARRAY] + pad + [CLOSE_ARRAY]
    case ArrayTree(items) => [OPEN_ARRAY] + YieldItems(items) + [CLOSE_ARRAY]
    case EmptyObjectTree(pad) => [OPEN_OBJECT] + pad + [CLOSE_OBJECT]
    case ObjectTree(members) => [OPEN_OBJECT] + YieldMembers(members) + [CLOSE_OBJECT]
  }
  function YieldSlot(s: Slot): Text { s.before + Yield(s.value) + s.after }
  function YieldItems(its: Items): Text {
    YieldSlot(its.slot) + (if its.NextItem? then [COMMA] + YieldItems(its.rest) else [])
  }
  function YieldPair(p: Pair): Text {
    p.before + Quoted(p.key) + p.middle + [COLON] + YieldSlot(p.slot)
  }
  function YieldMembers(ms: Members): Text {
    YieldPair(ms.pair) + (if ms.NextMember? then [COMMA] + YieldMembers(ms.rest) else [])
  }

  /** The limits the bridge adds to the grammar: number ranges, and no key twice in one object. */
  predicate Acceptable(t: Tree)
    requires WellFormed(t)
  {
    match t
    case NumberTree(literal) => AcceptableLiteral(literal)
    case ArrayTree(items) => AcceptableItems(items)
    case ObjectTree(members) => AcceptableMembers(members, {})
    case _ => true
  }
  predicate AcceptableItems(its: Items)
    requires WellFormedItems(its)
  {
    Acceptable(its.slot.value) && (its.NextItem? ==> AcceptableItems(its.rest))
  }
  predicate AcceptableMembers(ms: Members, seen: set<Text>)
    requires WellFormedMembers(ms)
  {
    && PiecesValue(ms.pair.key) !in seen
    && Acceptable(ms.pair.slot.value)
    && (ms.NextMember? ==> AcceptableMembers(ms.rest, seen + {PiecesValue(ms.pair.key)}))
  }

  /** The document a derivation denotes. */
  function Meaning(t: Tree): Json
    requires WellFormed(t)
  {
    match t
    case NullTree => Null
    case TrueTree => Bool(true)
    case FalseTree => Bool(false)
    case NumberTree(literal) => NumberValue(literal)
    case StringTree(pieces) => Str(PiecesValue(pieces))
    case EmptyArrayTree(_) => Arr([])
    case ArrayTree(items) => Arr(Values(items))
    case EmptyObjectTree(_) => Obj(map[])
    case ObjectTree(members) => Obj(Collect(members, map[]))
  }
  function Values(its: Items): seq<Json>
    requires WellFormedItems(its)
  {
    [Meaning(its.slot.value)] + (if its.NextItem? then Values(its.rest) else [])
  }
  function Collect(ms: Members, acc: map<Text, Json>): map<Text, Json>
    requires WellFormedMembers(ms)
  {
    var now := acc[PiecesValue(ms.pair.key) := Meaning(ms.pair.slot.value)];
    if ms.NextMember? then Collect(ms.rest, now) else now
  }

  /** The documents the bridge can hold: 64-bit integers, and numbers with a finite non-integer literal. */
  predicate Holds(v: Json) {
    match v
    case Int(n) => IsInt64(n)
    case Num(l) => WellFormedLiteral(l) && !IsInteger(l) && !Overflows(l)
    case Arr(items) => forall i :: 0 <= i < |items| ==> Holds(items[i])
    case Obj(members) => forall k :: k in members ==> Holds(members[k])
    case _ => true
  }

  // ---------------------------------------------------------------- doubles

  /** The 64 bits of a double of IEEE 754. */
  type Double = n: int | 0 <= n < 0x1_0000_0000_0000_0000

  const SIGN_BIT: int := 0x8000_0000_0000_0000

  /** The eleven bits of the exponent are not all set: neither an infinity nor a NaN. */
  predicate Finite(x: Double) { x / 0x10_0000_0000_0000 % 2048 != 2047 }

  /** `double.TryParse` and `ToString("0.0################")` of the invariant culture belong to the platform. */
  datatype Doubles = Doubles(nearest: Literal -> Double, shown: Double -> Literal) {
    /** The literal that is written for a number read from `l`. */
    function Rewritten(l: Literal): Literal { shown(nearest(l)) }
  }

  /** The double nearest to the literal is positive: it exceeds half the smallest positive double. */
  predicate RoundsPositive(l: Literal) {
    var fraction := if l.fraction.Some? then l.fraction.value else [];
    var written := if l.exponent.Some? then DigitsValue(l.exponent.value.digits) else 0;
    var scale := (if l.exponent.Some? && l.exponent.value.sign == [MINUS] then -written else written) - |fraction|;
    var mantissa := DigitsValue(l.whole + fraction);
    && !l.negative
    && if scale >= 0 then mantissa > 0 else mantissa * Power(2, 1075) > Power(10, -scale)
  }

  /** The literal stands for zero or for a positive number of at most a unit of the eighteenth decimal. */
  predicate Tiny(l: Literal) {
    var fraction := if l.fraction.Some? then l.fraction.value else [];
    var written := if l.exponent.Some? then DigitsValue(l.exponent.value.digits) else 0;
    var scale := (if l.exponent.Some? && l.exponent.value.sign == [MINUS] then -written else written) - |fraction|;
    var mantissa := DigitsValue(l.whole + fraction);
    !l.negative && scale < 0 && mantissa * Power(10, 18) <= Power(10, -scale)
  }

  const ZERO: Literal := Literal(false, [0x30], Some([0x30]), None)
  const TWO: Literal := Literal(false, [0x32], Some([0x30]), None)

  /**
   * What is asked of the platform: reading keeps the sign, and writing gives digits, a point and between one and
   * seventeen more digits, so that a number too small for the seventeenth decimal is written as `0.0`, and `2.0` as it is.
   */
  ghost predicate ValidDoubles(d: Doubles) {
    && (forall l {:trigger d.nearest(l)} :: WellFormedLiteral(l) && !Overflows(l) ==> ReadsWithSign(d, l))
    && (forall x {:trigger d.shown(x)} :: Finite(x) ==> IsFixedPoint(d.shown(x)))
    && (forall l {:trigger d.nearest(l)} :: WellFormedLiteral(l) && Tiny(l) ==> d.Rewritten(l) == ZERO)
    && d.Rewritten(TWO) == TWO
  }

  predicate ReadsWithSign(d: Doubles, l: Literal) {
    Finite(d.nearest(l)) && (RoundsPositive(l) <==> 0 < d.nearest(l) < SIGN_BIT)
  }

  predicate IsFixedPoint(l: Literal) {
    WellFormedLiteral(l) && l.fraction.Some? && |l.fraction.value| <= 17 && l.exponent.None?
  }

  /** A property of every number with a fraction or an exponent, at any depth. */
  predicate Everywhere(p: Literal -> bool, v: Json) {
    match v
    case Num(l) => p(l)
    case Arr(items) => forall i :: 0 <= i < |items| ==> Everywhere(p, items[i])
    case Obj(members) => forall k :: k in members ==> Everywhere(p, members[k])
    case _ => true
  }

  /** The document with every number as it is written. */
  function Printed(d: Doubles, v: Json): Json {
    match v
    case Num(l) => Num(d.Rewritten(l))
    case Arr(items) => Arr(seq(|items|, i requires 0 <= i < |items| => Printed(d, items[i])))
    case Obj(members) => Obj(map k | k in members :: Printed(d, members[k]))
    case _ => v
  }

  /** Both documents denote one value: they differ in literals of the same double at most. */
  predicate Same(d: Doubles, a: Json, b: Json)
    decreases a
  {
    match a
    case Num(l) => b.Num? && d.nearest(l) == d.nearest(b.literal)
    case Arr(items) => b.Arr? && |items| == |b.items| && forall i :: 0 <= i < |items| ==> Same(d, items[i], b.items[i])
    case Obj(m) => b.Obj? && m.Keys == b.members.Keys && forall k :: k in m ==> Same(d, m[k], b.members[k])
    case _ => a == b
  }

  /** The number that is written can be read. */
  function InRange(d: Doubles): Literal -> bool { l => !Overflows(d.Rewritten(l)) }

  /** The number that is written can be read, and gives the double it was written for. */
  function Printable(d: Doubles): Literal -> bool {
    l => !Overflows(d.Rewritten(l)) && d.nearest(d.Rewritten(l)) == d.nearest(l)
  }

  function NoNumber(): Literal -> bool { l => false }

  // ---------------------------------------------------------------- serialization

  /** `long.ToString(CultureInfo.InvariantCulture)`. */
  function Decimal(n: nat): Text {
    if n < 10 then [n + 0x30] else Decimal(n / 10) + [n % 10 + 0x30]
  }
  function IntegerText(n: int): Text {
    if n < 0 then [MINUS] + Decimal(-n) else Decimal(n)
  }

  /** `ToString("x4")` of a control character. */
  function HexNibble(n: int): Unit
    requires 0 <= n < 16
  {
    if n < 10 then n + 0x30 else n - 10 + 0x61
  }

  function UnitPiece(u: Unit): Piece {
    if u == QUOTE then Escape(QUOTE)
    else if u == BACKSLASH then Escape(BACKSLASH)
    else if u == 0x08 then Escape(0x62)
    else if u == 0x0C then Escape(0x66)
    else if u == 0x0A then Escape(0x6E)
    else if u == 0x0D then Escape(0x72)
    else if u == 0x09 then Escape(0x74)
    else if u < 0x20 then Hex([0x30, 0x30, HexNibble(u / 16), HexNibble(u % 16)])
    else Plain(u)
  }

  function TextPieces(t: Text): seq<Piece> {
    if t == [] then [] else [UnitPiece(t[0])] + TextPieces(t[1..])
  }

  function StringText(t: Text): Text { Quoted(TextPieces(t)) }

  /** `StrictJson.Serialize`: no white space, the keys of every object in ordinal order. */
  ghost function Serialize(d: Doubles, v: Json): Text
    decreases v
  {
    match v
    case Null => NULL_WORD
    case Bool(b) => if b then TRUE_WORD else FALSE_WORD
    case Int(n) => IntegerText(n)
    case Num(l) => LiteralText(d.Rewritten(l))
    case Str(t) => StringText(t)
    case Arr(items) => [OPEN_ARRAY] + SerializeItems(d, v, 0) + [CLOSE_ARRAY]
    case Obj(m) => [OPEN_OBJECT] + SerializeMembers(d, v, Sorted(m.Keys), 0) + [CLOSE_OBJECT]
  }

  /** The items from `i` on, each after the first of all preceded by a comma. */
  ghost function SerializeItems(d: Doubles, v: Json, i: nat): Text
    requires v.Arr? && i <= |v.items|
    decreases v, |v.items| - i
  {
    if i == |v.items| then [] else
      (if i > 0 then [COMMA] else []) + Serialize(d, v.items[i]) + SerializeItems(d, v, i + 1)
  }

  ghost function SerializeMembers(d: Doubles, v: Json, keys: seq<Text>, i: nat): Text
    requires v.Obj? && i <= |keys| && Elements(keys) == v.members.Keys
    decreases v, |keys| - i
  {
    if i == |keys| then [] else
      assert keys[i] in Elements(keys);
      (if i > 0 then [COMMA] else []) + StringText(keys[i]) + [COLON] + Serialize(d, v.members[keys[i]])
      + SerializeMembers(d, v, keys, i + 1)
  }
}
