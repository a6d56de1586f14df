/** What the recursive-descent parser computes, as functions on the text still to be read. */
module JsonReading {
  import opened Texts
  import opened Json

  datatype Parsed<+T> = Fail | Done(value: T, rest: Text)

  function SkipBlank(s: Text): (r: Text)
    ensures |r| <= |s| && (r != [] ==> !IsBlank(r[0]))
  {
    if s != [] && IsBlank(s[0]) then SkipBlank(s[1..]) else s
  }

  function DigitCount(s: Text): (n: nat)
    ensures n <= |s| && Digits(s[..n]) && (n < |s| ==> !IsDigit(s[n]))
  {
    if s != [] && IsDigit(s[0]) then
      var m := DigitCount(s[1..]);
      assert s[..m + 1] == [s[0]] + s[1..][..m];
      m + 1
    else 0
  }

  function ReadWord(s: Text, word: Text, v: Json): (r: Parsed<Json>)
    ensures r.Done? ==> |r.rest| + |word| == |s|
  {
    if word <= s then Done(v, s[|word|..]) else Fail
  }

  function ReadWhole(s: Text): (r: Parsed<Text>)
    ensures r.Done? ==> |r.rest| < |s|
  {
    if s == [] then Fail
    else if s[0] == 0x30 then Done([0x30], s[1..])
    else if !IsDigit(s[0]) then Fail
    else Done(s[..DigitCount(s)], s[DigitCount(s)..])
  }

  function ReadFraction(s: Text): (r: Parsed<Option<Text>>)
    ensures r.Done? ==> |r.rest| <= |s|
  {
    if s == [] || s[0] != POINT then Done(None, s)
    else
      var n := DigitCount(s[1..]);
      if n == 0 then Fail else Done(Some(s[1..][..n]), s[1..][n..])
  }

  function SignLength(s: Text): (n: nat)
    ensures n <= |s|
  {
    if s != [] && (s[0] == PLUS || s[0] == MINUS) then 1 else 0
  }

  function ReadExponent(s: Text): (r: Parsed<Option<Exponent>>)
    ensures r.Done? ==> |r.rest| <= |s|
  {
    if s == [] || !IsMarker(s[0]) then Done(None, s)
    else
      var sign := SignLength(s[1..]);
      var digits := s[1..][sign..];
      var n := DigitCount(digits);
      if n == 0 then Fail else Done(Some(Exponent(s[0], s[1..][..sign], digits[..n])), digits[n..])
  }

  function ReadMagnitude(s: Text, negative: bool): (r: Parsed<Literal>)
    ensures r.Done? ==> |r.rest| < |s|
  {
    match ReadWhole(s)
    case Fail => Fail
    case Done(whole, a) =>
      match ReadFraction(a)
      case Fail => Fail
      case Done(fraction, b) =>
        match ReadExponent(b)
        case Fail => Fail
        case Done(exponent, c) => Done(Literal(negative, whole, fraction, exponent), c)
  }

  function ReadLiteral(s: Text): (r: Parsed<Literal>)
    ensures r.Done? ==> |r.rest| < |s|
  {
    if s != [] && s[0] == MINUS then ReadMagnitude(s[1..], true) else ReadMagnitude(s, false)
  }

  function ReadNumber(s: Text): (r: Parsed<Json>)
    ensures r.Done? ==> |r.rest| < |s|
  {
    match ReadLiteral(s)
    case Fail => Fail
    case Done(l, rest) => if AcceptableLiteral(l) then Done(NumberValue(l), rest) else Fail
  }

  /** The characters of a string literal after its opening quote. */
  function ReadChars(s: Text, acc: Text): (r: Parsed<Text>)
    ensures r.Done? ==> |r.rest| < |s|
    decreases |s|
  {
    if s == [] then Fail
    else if s[0] == QUOTE then Done(acc, s[1..])
    else if s[0] < 0x20 then Fail
    else if s[0] != BACKSLASH then ReadChars(s[1..], acc + [s[0]])
    else if |s| == 1 then Fail
    else if s[1] == LETTER_U then
      if |s| < 6 || !HexDigits(s[2..6]) then Fail else ReadChars(s[6..], acc + [HexValue(s[2..6])])
    else if Unescape(s[1]).Some? then ReadChars(s[2..], acc + [Unescape(s[1]).value])
    else Fail
  }

  function ReadValue(s: Text): (r: Parsed<Json>)
    ensures r.Done? ==> |r.rest| < |s|
    decreases |s|, 0
  {
    var t := SkipBlank(s);
    if t == [] then Fail
    else if t[0] == NULL_WORD[0] then ReadWord(t, NULL_WORD, Null)
    else if t[0] == TRUE_WORD[0] then ReadWord(t, TRUE_WORD, Bool(true))
    else if t[0] == FALSE_WORD[0] then ReadWord(t, FALSE_WORD, Bool(false))
    else if t[0] == QUOTE then
      match ReadChars(t[1..], []) {
        case Fail => Fail
        case Done(text, rest) => Done(Str(text), rest)
      }
    else if t[0] == OPEN_ARRAY then ReadArray(t[1..])
    else if t[0] == OPEN_OBJECT then ReadObject(t[1..])
    else if t[0] == MINUS || IsDigit(t[0]) then ReadNumber(t)
    else Fail
  }

  function ReadArray(s: Text): (r: Parsed<Json>)
    ensures r.Done? ==> |r.rest| < |s|
    decreases |s|, 2
  {
    var t := SkipBlank(s);
    if t != [] && t[0] == CLOSE_ARRAY then Done(Arr([]), t[1..]) else ReadItems(t, [])
  }

  function ReadItems(s: Text, acc: seq<Json>): (r: Parsed<Json>)
    ensures r.Done? ==> |r.rest| < |s|
    decreases |s|, 1
  {
    match ReadValue(s)
    case Fail => Fail
    case Done(v, a) =>
      var b := SkipBlank(a);
      if b == [] then Fail
      else if b[0] == CLOSE_ARRAY then Done(Arr(acc + [v]), b[1..])
      else if b[0] != COMMA then Fail
      else ReadItems(b[1..], acc + [v])
  }

  function ReadObject(s: Text): (r: Parsed<Json>)
    ensures r.Done? ==> |r.rest| < |s|
    decreases |s|, 2
  {
    var t := SkipBlank(s);
    if t != [] && t[0] == CLOSE_OBJECT then Done(Obj(map[]), t[1..]) else ReadMembers(t, map[])
  }

  function ReadKey(s: Text): (r: Parsed<Text>)
    ensures r.Done? ==> |r.rest| < |s|
  {
    var t := SkipBlank(s);
    if t == [] || t[0] != QUOTE then Fail
    else match ReadChars(t[1..], []) {
      case Fail => Fail
      case Done(key, a) =>
        var b := SkipBlank(a);
        if b == [] || b[0] != COLON then Fail else Done(key, b[1..])
    }
  }

  function ReadMembers(s: Text, acc: map<Text, Json>): (r: Parsed<Json>)
    ensures r.Done? ==> |r.rest| < |s|
    decreases |s|, 1
  {
    match ReadKey(s)
    case Fail => Fail
    case Done(key, a) =>
      match ReadValue(a)
      case Fail => Fail
      case Done(v, b) =>
        if key in acc then Fail
        else
          var c := SkipBlank(b);
          if c == [] then Fail
          else if c[0] == CLOSE_OBJECT then Done(Obj(acc[key := v]), c[1..])
          else if c[0] != COMMA then Fail
          else ReadMembers(c[1..], acc[key := v])
  }

  /** `StrictJson.Parse`: one value, white space around it, nothing more. */
  function Parse(text: Text): Option<Json> {
    match ReadValue(text)
    case Fail => None
    case Done(v, rest) => if SkipBlank(rest) == [] then Some(v) else None
  }
}
