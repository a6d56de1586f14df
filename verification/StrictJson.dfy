/** The serializer and the parser as the bridge runs them: a shared output buffer and an advancing index. */
module StrictJson {
  import opened Texts
  import opened Json
  import Reading = JsonReading

  class StringBuilder {
    var text: Text

    constructor ()
      ensures text == []
    {
      text := [];
    }

    method Append(more: Text)
      modifies this
      ensures text == old(text) + more
    {
      text := text + more;
    }
  }

  method WriteString(value: Text, output: StringBuilder)
    modifies output
    ensures output.text == old(output.text) + StringText(value)
  {
    output.Append([QUOTE]);
    var i := 0;
    ghost var later := PiecesText(TextPieces(value)) + [QUOTE];
    Resume(old(output.text), [QUOTE], later, [QUOTE] + PiecesText(TextPieces(value)) + [QUOTE]);
    assert value[0..] == value;
    while i < |value|
      invariant i <= |value|
      invariant output.text + (PiecesText(TextPieces(value[i..])) + [QUOTE]) == old(output.text) + StringText(value)
    {
      NextPiece(output.text, value, i);
      output.Append(PieceText(UnitPiece(value[i])));
      i := i + 1;
    }
    output.Append([QUOTE]);
  }

  lemma Resume(before: Text, now: Text, later: Text, all: Text)
    requires now + later == all
    ensures before + now + later == before + all
  {
  }

  lemma NextPiece(before: Text, value: Text, i: nat)
    requires i < |value|
    ensures before + (PiecesText(TextPieces(value[i..])) + [QUOTE])
         == before + PieceText(UnitPiece(value[i])) + (PiecesText(TextPieces(value[i + 1..])) + [QUOTE])
  {
    assert value[i..][1..] == value[i + 1..];
    assert TextPieces(value[i..])[1..] == TextPieces(value[i + 1..]);
    var now := PieceText(UnitPiece(value[i]));
    var later := PiecesText(TextPieces(value[i + 1..]));
    assert PiecesText(TextPieces(value[i..])) == now + later;
    assert before + (now + later + [QUOTE]) == before + now + (later + [QUOTE]);
  }

  method Write(d: Doubles, value: Json, output: StringBuilder)
    modifies output
    ensures output.text == old(output.text) + Serialize(d, value)
    decreases value
  {
    match value {
      case Null => output.Append(NULL_WORD);
      case Bool(b) => output.Append(if b then TRUE_WORD else FALSE_WORD);
      case Int(n) => output.Append(IntegerText(n));
      case Num(literal) => output.Append(LiteralText(d.shown(d.nearest(literal))));
      case Str(text) => WriteString(text, output);
      case Arr(_) => WriteArray(d, value, output);
      case Obj(_) => WriteObject(d, value, output);
    }
  }

  method WriteArray(d: Doubles, value: Json, output: StringBuilder)
    requires value.Arr?
    modifies output
    ensures output.text == old(output.text) + Serialize(d, value)
    decreases value, 0
  {
    output.Append([OPEN_ARRAY]);
    var i := 0;
    Resume(old(output.text), [OPEN_ARRAY], SerializeItems(d, value, 0) + [CLOSE_ARRAY], Serialize(d, value));
    while i < |value.items|
      invariant i <= |value.items|
      invariant output.text + (SerializeItems(d, value, i) + [CLOSE_ARRAY]) == old(output.text) + Serialize(d, value)
    {
      NextItem(output.text, d, value, i);
      if i > 0 { output.Append([COMMA]); }
      Write(d, value.items[i], output);
      i := i + 1;
    }
    output.Append([CLOSE_ARRAY]);
  }

  lemma NextItem(before: Text, d: Doubles, value: Json, i: nat)
    requires value.Arr? && i < |value.items|
    ensures before + (SerializeItems(d, value, i) + [CLOSE_ARRAY])
         == (if i > 0 then before + [COMMA] else before) + Serialize(d, value.items[i])
            + (SerializeItems(d, value, i + 1) + [CLOSE_ARRAY])
  {
    var lead := if i > 0 then [COMMA] else [];
    var item := Serialize(d, value.items[i]);
    var more := SerializeItems(d, value, i + 1);
    assert SerializeItems(d, value, i) == lead + item + more;
    assert before + ((lead + item + more) + [CLOSE_ARRAY]) == before + lead + item + (more + [CLOSE_ARRAY]);
    assert before + [] == before;
  }

  method WriteObject(d: Doubles, value: Json, output: StringBuilder)
    requires value.Obj?
    modifies output
    ensures output.text == old(output.text) + Serialize(d, value)
    decreases value, 0
  {
    output.Append([OPEN_OBJECT]);
    var keys := SortOrdinal(value.members.Keys);
    var i := 0;
    ghost var later := SerializeMembers(d, value, keys, 0) + [CLOSE_OBJECT];
    Resume(old(output.text), [OPEN_OBJECT], later, Serialize(d, value));
    while i < |keys|
      invariant i <= |keys| && Elements(keys) == value.members.Keys
      invariant output.text + (SerializeMembers(d, value, keys, i) + [CLOSE_OBJECT])
        == old(output.text) + Serialize(d, value)
    {
      var key := keys[i];
      assert key in Elements(keys);
      NextMember(output.text, d, value, keys, i);
      if i > 0 { output.Append([COMMA]); }
      WriteString(key, output);
      output.Append([COLON]);
      Write(d, value.members[key], output);
      i := i + 1;
    }
    output.Append([CLOSE_OBJECT]);
  }

  lemma NextMember(before: Text, d: Doubles, value: Json, keys: seq<Text>, i: nat)
    requires value.Obj? && i < |keys| && Elements(keys) == value.members.Keys && keys[i] in value.members
    ensures before + (SerializeMembers(d, value, keys, i) + [CLOSE_OBJECT])
         == (if i > 0 then before + [COMMA] else before) + StringText(keys[i]) + [COLON]
            + Serialize(d, value.members[keys[i]]) + (SerializeMembers(d, value, keys, i + 1) + [CLOSE_OBJECT])
  {
    var lead := if i > 0 then [COMMA] else [];
    var key := StringText(keys[i]);
    var item := Serialize(d, value.members[keys[i]]);
    var more := SerializeMembers(d, value, keys, i + 1);
    assert SerializeMembers(d, value, keys, i) == lead + key + [COLON] + item + more;
    RegroupMember(before, lead, key, item, more);
    assert before + [] == before;
  }

  lemma RegroupMember(before: Text, lead: Text, key: Text, item: Text, more: Text)
    ensures before + ((lead + key + [COLON] + item + more) + [CLOSE_OBJECT])
         == before + lead + key + [COLON] + item + (more + [CLOSE_OBJECT])
  {
  }

  /** `StrictJson.Serialize`. */
  method SerializeText(d: Doubles, value: Json) returns (text: Text)
    ensures text == Serialize(d, value)
  {
    var output := new StringBuilder();
    Write(d, value, output);
    text := output.text;
    assert [] + Serialize(d, value) == Serialize(d, value);
  }

  /** A method's outcome and the text it left unread agree with the reading function. */
  ghost predicate Agrees<T>(r: Option<T>, p: Reading.Parsed<T>, rest: Text) {
    match p
    case Fail => r == None
    case Done(value, left) => r == Some(value) && rest == left
  }

  class Parser {
    const text: Text
    var index: nat

    ghost predicate Valid() reads this { index <= |text| }
    ghost function Ahead(): Text
      requires Valid()
      reads this
    {
      text[index..]
    }

    constructor (text: Text)
      ensures Valid() && this.text == text && Ahead() == text
    {
      this.text := text;
      index := 0;
    }

    predicate AtEnd()
      requires Valid()
      reads this
      ensures AtEnd() <==> Ahead() == []
    {
      index == |text|
    }

    function Peek(): (c: Unit)
      requires Valid() && !AtEnd()
      reads this
      ensures c == Ahead()[0]
    {
      text[index]
    }

    method Advance()
      requires Valid() && !AtEnd()
      modifies this
      ensures Valid() && index == old(index) + 1 && Ahead() == old(Ahead())[1..]
    {
      index := index + 1;
    }

    method SkipWhitespace()
      requires Valid()
      modifies this
      ensures Valid() && index >= old(index) && Ahead() == Reading.SkipBlank(old(Ahead()))
    {
      while !AtEnd() && IsBlank(Peek())
        invariant Valid() && index >= old(index)
        invariant Reading.SkipBlank(Ahead()) == Reading.SkipBlank(old(Ahead()))
        decreases |text| - index
      {
        Advance();
      }
    }

    method TakeDigits() returns (digits: Text)
      requires Valid()
      modifies this
      ensures Valid() && index == old(index) + |digits|
      ensures digits == old(Ahead())[..Reading.DigitCount(old(Ahead()))]
      ensures Ahead() == old(Ahead())[Reading.DigitCount(old(Ahead()))..]
    {
      var start := index;
      while !AtEnd() && IsDigit(Peek())
        invariant Valid() && start <= index
        invariant index + Reading.DigitCount(Ahead()) == start + Reading.DigitCount(old(Ahead()))
        decreases |text| - index
      {
        Advance();
      }
      digits := text[start..index];
    }

    method ReadLiteral(word: Text, value: Json) returns (r: Option<Json>)
      requires Valid()
      modifies this
      ensures Valid() && index >= old(index) && Agrees(r, Reading.ReadWord(old(Ahead()), word, value), Ahead())
    {
      if index + |word| > |text| || text[index..index + |word|] != word {
        return None;
      }
      assert Ahead()[..|word|] == word && Ahead()[|word|..] == text[index + |word|..];
      index := index + |word|;
      r := Some(value);
    }

    method ReadWhole() returns (r: Option<Text>)
      requires Valid()
      modifies this
      ensures Valid() && index >= old(index) && Agrees(r, Reading.ReadWhole(old(Ahead())), Ahead())
    {
      if AtEnd() { return None; }
      if Peek() == 0x30 {
        Advance();
        return Some([0x30]);
      }
      if !IsDigit(Peek()) { return None; }
      var digits := TakeDigits();
      r := Some(digits);
    }

    method ReadFraction() returns (r: Option<Option<Text>>)
      requires Valid()
      modifies this
      ensures Valid() && index >= old(index) && Agrees(r, Reading.ReadFraction(old(Ahead())), Ahead())
    {
      if AtEnd() || Peek() != POINT { return Some(None); }
      Advance();
      var digits := TakeDigits();
      r := if digits == [] then None else Some(Some(digits));
    }

    method ReadSign() returns (sign: Text)
      requires Valid()
      modifies this
      ensures Valid() && index >= old(index)
      ensures sign == old(Ahead())[..Reading.SignLength(old(Ahead()))]
      ensures Ahead() == old(Ahead())[Reading.SignLength(old(Ahead()))..]
    {
      sign := [];
      if !AtEnd() && (Peek() == PLUS || Peek() == MINUS) {
        sign := [Peek()];
        Advance();
      }
    }

    method ReadExponent() returns (r: Option<Option<Exponent>>)
      requires Valid()
      modifies this
      ensures Valid() && index >= old(index) && Agrees(r, Reading.ReadExponent(old(Ahead())), Ahead())
    {
      if AtEnd() || !IsMarker(Peek()) { return Some(None); }
      var marker := Peek();
      Advance();
      var sign := ReadSign();
      var digits := TakeDigits();
      r := if digits == [] then None else Some(Some(Exponent(marker, sign, digits)));
    }

    method ReadInteger() returns (r: Option<Json>)
      requires Valid() && !AtEnd()
      modifies this
      ensures Valid() && index >= old(index) && Agrees(r, Reading.ReadNumber(old(Ahead())), Ahead())
    {
      var negative := Peek() == MINUS;
      if negative { Advance(); }
      var whole := ReadWhole();
      if whole.None? { return None; }
      var fraction := ReadFraction();
      if fraction.None? { return None; }
      var exponent := ReadExponent();
      if exponent.None? { return None; }
      var literal := Literal(negative, whole.value, fraction.value, exponent.value);
      assert Reading.ReadLiteral(old(Ahead())) == Reading.Done(literal, Ahead());
      if !AcceptableLiteral(literal) { return None; }
      r := Some(NumberValue(literal));
    }

    method ReadUnicode() returns (r: Option<Unit>)
      requires Valid()
      modifies this
      ensures Valid() && index >= old(index)
      ensures r.Some? <==> |old(Ahead())| >= 4 && HexDigits(old(Ahead())[..4])
      ensures r.Some? ==> r.value == HexValue(old(Ahead())[..4]) && Ahead() == old(Ahead())[4..]
    {
      if index + 4 > |text| { return None; }
      assert text[index..index + 4] == Ahead()[..4];
      if !HexDigits(text[index..index + 4]) { return None; }
      r := Some(HexValue(text[index..index + 4]));
      index := index + 4;
    }

    /** The characters of a string, from just after its opening quote. */
    method ReadString() returns (r: Option<Text>)
      requires Valid()
      modifies this
      ensures Valid() && index >= old(index) && Agrees(r, Reading.ReadChars(old(Ahead()), []), Ahead())
    {
      var result: Text := [];
      while !AtEnd()
        invariant Valid() && index >= old(index)
        invariant Reading.ReadChars(Ahead(), result) == Reading.ReadChars(old(Ahead()), [])
        decreases |text| - index
      {
        ghost var s := Ahead();
        var character := Peek();
        Advance();
        if character == QUOTE { return Some(result); }
        if character < 0x20 { return None; }
        if character != BACKSLASH {
          result := result + [character];
        } else {
          if AtEnd() { return None; }
          var escaped := Peek();
          Advance();
          assert s[1..][1..] == s[2..];
          if escaped == LETTER_U {
            assert |s| >= 6 ==> s[2..][..4] == s[2..6] && s[2..][4..] == s[6..];
            var unit := ReadUnicode();
            if unit.None? { return None; }
            result := result + [unit.value];
          } else if Unescape(escaped).Some? {
            result := result + [Unescape(escaped).value];
          } else {
            return None;
          }
        }
      }
      r := None;
    }

    method ReadValue() returns (r: Option<Json>)
      requires Valid()
      modifies this
      ensures Valid() && index >= old(index) && Agrees(r, Reading.ReadValue(old(Ahead())), Ahead())
      ensures r.Some? ==> index > old(index)
      decreases |text| - index, 0
    {
      SkipWhitespace();
      if AtEnd() { return None; }
      var first := Peek();
      if first == NULL_WORD[0] {
        r := ReadLiteral(NULL_WORD, Null);
      } else if first == TRUE_WORD[0] {
        r := ReadLiteral(TRUE_WORD, Bool(true));
      } else if first == FALSE_WORD[0] {
        r := ReadLiteral(FALSE_WORD, Bool(false));
      } else if first == QUOTE {
        Advance();
        var s := ReadString();
        r := if s.Some? then Some(Str(s.value)) else None;
      } else if first == OPEN_ARRAY {
        Advance();
        r := ReadArray();
      } else if first == OPEN_OBJECT {
        Advance();
        r := ReadObject();
      } else if first == MINUS || IsDigit(first) {
        r := ReadInteger();
      } else {
        r := None;
      }
    }

    method ReadArray() returns (r: Option<Json>)
      requires Valid()
      modifies this
      ensures Valid() && index >= old(index) && Agrees(r, Reading.ReadArray(old(Ahead())), Ahead())
      decreases |text| - index, 1
    {
      SkipWhitespace();
      if !AtEnd() && Peek() == CLOSE_ARRAY {
        Advance();
        return Some(Arr([]));
      }
      var values: seq<Json> := [];
      ghost var start := Ahead();
      while true
        invariant Valid() && index >= old(index)
        invariant Reading.ReadItems(Ahead(), values) == Reading.ReadItems(start, [])
        decreases |text| - index
      {
        var item := ReadValue();
        if item.None? { return None; }
        SkipWhitespace();
        if AtEnd() { return None; }
        var separator := Peek();
        Advance();
        values := values + [item.value];
        if separator == CLOSE_ARRAY { return Some(Arr(values)); }
        if separator != COMMA { return None; }
      }
    }

    method ReadObject() returns (r: Option<Json>)
      requires Valid()
      modifies this
      ensures Valid() && index >= old(index) && Agrees(r, Reading.ReadObject(old(Ahead())), Ahead())
      decreases |text| - index, 1
    {
      SkipWhitespace();
      if !AtEnd() && Peek() == CLOSE_OBJECT {
        Advance();
        return Some(Obj(map[]));
      }
      var values: map<Text, Json> := map[];
      ghost var start := Ahead();
      while true
        invariant Valid() && index >= old(index)
        invariant Reading.ReadMembers(Ahead(), values) == Reading.ReadMembers(start, map[])
        decreases |text| - index
      {
        var key := ReadKey();
        if key.None? { return None; }
        var item := ReadValue();
        if item.None? { return None; }
        if key.value in values { return None; }
        values := values[key.value := item.value];
        SkipWhitespace();
        if AtEnd() { return None; }
        var separator := Peek();
        Advance();
        if separator == CLOSE_OBJECT { return Some(Obj(values)); }
        if separator != COMMA { return None; }
      }
    }

    method ReadKey() returns (r: Option<Text>)
      requires Valid()
      modifies this
      ensures Valid() && index >= old(index) && Agrees(r, Reading.ReadKey(old(Ahead())), Ahead())
      ensures r.Some? ==> index > old(index)
    {
      SkipWhitespace();
      if AtEnd() || Peek() != QUOTE { return None; }
      Advance();
      var key := ReadString();
      if key.None? { return None; }
      SkipWhitespace();
      if AtEnd() || Peek() != COLON { return None; }
      Advance();
      r := key;
    }
  }

  /** `StrictJson.Parse`. */
  method ParseText(text: Text) returns (r: Option<Json>)
    ensures r == Reading.Parse(text)
  {
    var parser := new Parser(text);
    r := parser.ReadValue();
    if r.Some? {
      parser.SkipWhitespace();
      if !parser.AtEnd() { r := None; }
    }
  }
}
