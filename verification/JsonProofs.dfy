/** The reader accepts exactly the acceptable derivations, and undoes the serializer. */
module JsonProofs {
  import opened Texts
  import opened Json
  import opened JsonReading

  // ---------------------------------------------------------------- white space and digits

  lemma {:induction false} SkipBlankOver(pre: Text, s: Text)
    requires Blank(pre) && (s == [] || !IsBlank(s[0]))
    ensures SkipBlank(pre + s) == s
  {
    if pre == [] {
      assert pre + s == s;
    } else {
      assert (pre + s)[1..] == pre[1..] + s;
      SkipBlankOver(pre[1..], s);
    }
  }

  lemma {:induction false} SkipBlankSplits(s: Text) returns (pre: Text)
    ensures Blank(pre) && s == pre + SkipBlank(s)
  {
    if s != [] && IsBlank(s[0]) {
      pre := SkipBlankSplits(s[1..]);
      assert s == [s[0]] + s[1..];
      pre := [s[0]] + pre;
    } else {
      pre := [];
    }
  }

  lemma {:induction false} DigitCountOver(d: Text, s: Text)
    requires Digits(d) && (s == [] || !IsDigit(s[0]))
    ensures DigitCount(d + s) == |d|
  {
    if d == [] {
      assert d + s == s;
    } else {
      assert (d + s)[1..] == d[1..] + s;
      DigitCountOver(d[1..], s);
    }
  }

  /** A number literal ends here: the next character continues none. */
  predicate EndsNumber(s: Text) {
    s == [] || (!IsDigit(s[0]) && s[0] != POINT && !IsMarker(s[0]))
  }

  lemma WholeReads(w: Text, s: Text)
    requires Digits(w) && w != [] && (w[0] == 0x30 ==> |w| == 1)
    requires s == [] || !IsDigit(s[0])
    ensures ReadWhole(w + s) == Done(w, s)
  {
    DigitCountOver(w, s);
    assert (w + s)[..|w|] == w && (w + s)[|w|..] == s;
    if w[0] == 0x30 {
      assert w == [0x30];
    }
  }

  lemma FractionReads(f: Option<Text>, s: Text)
    requires f.Some? ==> Digits(f.value) && f.value != []
    requires s == [] || (!IsDigit(s[0]) && s[0] != POINT)
    ensures ReadFraction(FractionText(f) + s) == Done(f, s)
  {
    if f.Some? {
      assert (FractionText(f) + s)[1..] == f.value + s;
      DigitCountOver(f.value, s);
      assert (f.value + s)[..|f.value|] == f.value && (f.value + s)[|f.value|..] == s;
    } else {
      assert FractionText(f) + s == s;
    }
  }

  lemma SignReads(sign: Text, rest: Text)
    requires sign == [] || sign == [PLUS] || sign == [MINUS]
    requires rest != [] && IsDigit(rest[0])
    ensures SignLength(sign + rest) == |sign| && (sign + rest)[..|sign|] == sign && (sign + rest)[|sign|..] == rest
  {
    var body := sign + rest;
    if sign == [] { assert body[0] == rest[0]; } else { assert body[0] == sign[0]; }
  }

  lemma ExponentReads(e: Option<Exponent>, s: Text)
    requires e.Some? ==> WellFormedExponent(e.value)
    requires EndsNumber(s)
    ensures ReadExponent(ExponentText(e) + s) == Done(e, s)
  {
    if e.Some? {
      var Exponent(marker, sign, digits) := e.value;
      assert (ExponentText(e) + s)[1..] == sign + (digits + s);
      SignReads(sign, digits + s);
      DigitCountOver(digits, s);
      WordTaken(digits, s);
    } else {
      assert ExponentText(e) + s == s;
    }
  }

  lemma MagnitudeReads(l: Literal, s: Text)
    requires WellFormedLiteral(l) && EndsNumber(s)
    ensures ReadMagnitude(l.whole + (FractionText(l.fraction) + (ExponentText(l.exponent) + s)), l.negative)
      == Done(l, s)
  {
    var c := ExponentText(l.exponent) + s;
    var b := FractionText(l.fraction) + c;
    ExponentReads(l.exponent, s);
    assert c == [] || (!IsDigit(c[0]) && c[0] != POINT);
    FractionReads(l.fraction, c);
    assert b == [] || !IsDigit(b[0]);
    WholeReads(l.whole, b);
  }

  lemma LiteralReads(l: Literal, s: Text)
    requires WellFormedLiteral(l) && EndsNumber(s)
    ensures ReadLiteral(LiteralText(l) + s) == Done(l, s)
  {
    var a := l.whole + (FractionText(l.fraction) + (ExponentText(l.exponent) + s));
    MagnitudeReads(l, s);
    LiteralTextSplit(l, s);
    assert a[0] == l.whole[0];
    if l.negative {
      assert ([MINUS] + a)[1..] == a;
    } else {
      assert [] + a == a;
    }
  }

  lemma LiteralTextSplit(l: Literal, s: Text)
    ensures LiteralText(l) + s
         == (if l.negative then [MINUS] else []) + (l.whole + (FractionText(l.fraction) + (ExponentText(l.exponent) + s)))
  {
  }

  lemma WholeSplits(s: Text)
    requires ReadWhole(s).Done?
    ensures var w := ReadWhole(s).value;
            Digits(w) && w != [] && (w[0] == 0x30 ==> |w| == 1) && s == w + ReadWhole(s).rest
  {
  }

  lemma FractionSplits(s: Text)
    requires ReadFraction(s).Done?
    ensures var f := ReadFraction(s).value;
            (f.Some? ==> Digits(f.value) && f.value != []) && s == FractionText(f) + ReadFraction(s).rest
  {
    if ReadFraction(s).value.Some? {
      assert s == [POINT] + s[1..];
    } else {
      assert [] + s == s;
    }
  }

  lemma ExponentSplits(s: Text)
    requires ReadExponent(s).Done?
    ensures var e := ReadExponent(s).value;
            (e.Some? ==> WellFormedExponent(e.value)) && s == ExponentText(e) + ReadExponent(s).rest
  {
    if ReadExponent(s).value.Some? {
      var t := s[1..];
      var n := SignLength(t);
      var u := t[n..];
      var m := DigitCount(u);
      assert ReadExponent(s) == Done(Some(Exponent(s[0], t[..n], u[..m])), u[m..]);
      assert t[..n] == [] || t[..n] == [t[0]];
      SplitThree(s, t, n, u, m);
    } else {
      assert [] + s == s;
    }
  }

  lemma SplitThree(s: Text, t: Text, n: nat, u: Text, m: nat)
    requires s != [] && t == s[1..] && n <= |t| && u == t[n..] && m <= |u|
    ensures s == [s[0]] + t[..n] + u[..m] + u[m..]
  {
    Cut(u, m);
    Cut(t, n);
    Associate([s[0]], t[..n], u);
    Associate([s[0]] + t[..n], u[..m], u[m..]);
    assert s == [s[0]] + t;
  }

  lemma Cut(s: Text, n: nat)
    requires n <= |s|
    ensures s == s[..n] + s[n..]
  {
  }

  lemma MagnitudeSplits(s: Text, negative: bool)
    requires ReadMagnitude(s, negative).Done?
    ensures WellFormedLiteral(ReadMagnitude(s, negative).value) && ReadMagnitude(s, negative).value.negative == negative
    ensures LiteralText(ReadMagnitude(s, negative).value) + ReadMagnitude(s, negative).rest
         == (if negative then [MINUS] else []) + s
  {
    WholeSplits(s);
    var b := ReadWhole(s).rest;
    FractionSplits(b);
    var c := ReadFraction(b).rest;
    ExponentSplits(c);
    LiteralTextSplit(ReadMagnitude(s, negative).value, ReadExponent(c).rest);
  }

  lemma LiteralSplits(s: Text)
    requires ReadLiteral(s).Done?
    ensures WellFormedLiteral(ReadLiteral(s).value)
    ensures s == LiteralText(ReadLiteral(s).value) + ReadLiteral(s).rest
  {
    if s != [] && s[0] == MINUS {
      MagnitudeSplits(s[1..], true);
      assert s == [MINUS] + s[1..];
    } else {
      MagnitudeSplits(s, false);
      assert [] + s == s;
    }
  }

  // ---------------------------------------------------------------- strings

  lemma {:induction false} CharsRead(ps: seq<Piece>, s: Text, acc: Text)
    requires WellFormedPieces(ps)
    ensures ReadChars(PiecesText(ps) + [QUOTE] + s, acc) == Done(acc + PiecesValue(ps), s)
  {
    var t := PiecesText(ps) + [QUOTE] + s;
    if ps == [] {
      assert t == [QUOTE] + s;
      assert t[1..] == s;
      assert acc + PiecesValue(ps) == acc;
    } else {
      var p := ps[0];
      var rest := PiecesText(ps[1..]) + [QUOTE] + s;
      assert t == PieceText(p) + rest;
      assert t[|PieceText(p)|..] == rest;
      CharsRead(ps[1..], s, acc + [PieceUnit(p)]);
      assert acc + [PieceUnit(p)] + PiecesValue(ps[1..]) == acc + PiecesValue(ps);
      match p {
        case Plain(u) => assert t[0] == u;
        case Escape(code) => assert t[0] == BACKSLASH && t[1] == code;
        case Hex(digits) =>
          assert t[0] == BACKSLASH && t[1] == LETTER_U && t[2..6] == digits;
      }
    }
  }

  lemma Associate<T>(a: seq<T>, b: seq<T>, c: seq<T>)
    ensures a + b + c == a + (b + c)
  {
  }

  /** One step of the string reader takes one piece. */
  lemma PieceSplit(s: Text, acc: Text) returns (p: Piece, n: nat)
    requires ReadChars(s, acc).Done? && s[0] != QUOTE
    ensures WellFormedPiece(p) && 0 < n <= |s| && s[..n] == PieceText(p)
    ensures ReadChars(s, acc) == ReadChars(s[n..], acc + [PieceUnit(p)])
  {
    if s[0] != BACKSLASH {
      p, n := Plain(s[0]), 1;
    } else if s[1] == LETTER_U {
      p, n := Hex(s[2..6]), 6;
    } else {
      p, n := Escape(s[1]), 2;
    }
  }

  lemma {:induction false} CharsSplit(s: Text, acc: Text) returns (ps: seq<Piece>)
    requires ReadChars(s, acc).Done?
    ensures WellFormedPieces(ps)
    ensures s == PiecesText(ps) + [QUOTE] + ReadChars(s, acc).rest
    ensures ReadChars(s, acc).value == acc + PiecesValue(ps)
    decreases |s|
  {
    if s[0] == QUOTE {
      ps := [];
      assert s == [QUOTE] + s[1..];
      assert acc + [] == acc;
    } else {
      var p, n := PieceSplit(s, acc);
      var tail := CharsSplit(s[n..], acc + [PieceUnit(p)]);
      ps := PrependPiece(p, tail, s, n, ReadChars(s[n..], acc + [PieceUnit(p)]).rest);
      Associate(acc, [PieceUnit(p)], PiecesValue(tail));
    }
  }

  lemma PrependPiece(p: Piece, tail: seq<Piece>, s: Text, n: nat, rest: Text) returns (ps: seq<Piece>)
    requires WellFormedPiece(p) && WellFormedPieces(tail)
    requires n <= |s| && s[..n] == PieceText(p) && s[n..] == PiecesText(tail) + [QUOTE] + rest
    ensures ps == [p] + tail && WellFormedPieces(ps) && PiecesValue(ps) == [PieceUnit(p)] + PiecesValue(tail)
    ensures s == PiecesText(ps) + [QUOTE] + rest
  {
    ps := [p] + tail;
    assert ps[1..] == tail;
    assert s == s[..n] + s[n..];
  }

  // ---------------------------------------------------------------- completeness

  lemma FirstOfYield(t: Tree, s: Text)
    requires WellFormed(t)
    ensures Yield(t) != [] && !IsBlank(Yield(t)[0])
    ensures (Yield(t) + s)[0] == Yield(t)[0]
  {
    if t.NumberTree? {
      var l := t.literal;
      assert LiteralText(l)[0] == if l.negative then MINUS else l.whole[0];
    }
  }

  predicate Closes(t: Tree, s: Text) { t.NumberTree? ==> EndsNumber(s) }

  /** What reading a derivation ends in when `s` follows: its meaning, unless a limit of the bridge is broken. */
  function Outcome(t: Tree, s: Text): Parsed<Json>
    requires WellFormed(t)
  {
    if Acceptable(t) then Done(Meaning(t), s) else Fail
  }

  /** Every acceptable derivation is read to its meaning, up to exactly its last character; every other is refused. */
  lemma {:induction false} DerivationRead(pre: Text, t: Tree, s: Text)
    requires Blank(pre) && WellFormed(t) && Closes(t, s)
    ensures ReadValue(pre + Yield(t) + s) == Outcome(t, s)
    decreases t, 1
  {
    FirstOfYield(t, s);
    assert pre + Yield(t) + s == pre + (Yield(t) + s);
    SkipBlankOver(pre, Yield(t) + s);
    BareDerivationRead(t, s);
  }

  /** A text without leading white space is read from its first character. */
  lemma NothingToSkip(t: Text)
    requires t != [] && !IsBlank(t[0])
    ensures SkipBlank(t) == t
  {
  }

  lemma WordTaken(word: Text, s: Text)
    ensures word <= word + s && (word + s)[|word|..] == s
  {
  }

  lemma ScalarRead(t: Tree, s: Text)
    requires WellFormed(t) && Closes(t, s)
    requires t.NullTree? || t.TrueTree? || t.FalseTree? || t.NumberTree? || t.StringTree?
    ensures ReadValue(Yield(t) + s) == Outcome(t, s)
  {
    FirstOfYield(t, s);
    NothingToSkip(Yield(t) + s);
    if t.NullTree? {
      WordTaken(NULL_WORD, s);
    } else if t.TrueTree? {
      WordTaken(TRUE_WORD, s);
    } else if t.FalseTree? {
      WordTaken(FALSE_WORD, s);
    } else if t.NumberTree? {
      LiteralReads(t.literal, s);
    } else {
      StringRead(t.pieces, s);
    }
  }

  lemma {:induction false} BareDerivationRead(t: Tree, s: Text)
    requires WellFormed(t) && Closes(t, s)
    ensures ReadValue(Yield(t) + s) == Outcome(t, s)
    decreases t, 0
  {
    FirstOfYield(t, s);
    NothingToSkip(Yield(t) + s);
    match t {
      case EmptyArrayTree(pad) => EmptyRead(pad, s);
      case ArrayTree(items) => ArrayRead(items, s);
      case EmptyObjectTree(pad) => EmptyRead(pad, s);
      case ObjectTree(members) => ObjectRead(members, s);
      case _ => ScalarRead(t, s);
    }
  }

  lemma StringRead(ps: seq<Piece>, s: Text)
    requires WellFormedPieces(ps)
    ensures (Quoted(ps) + s)[0] == QUOTE
    ensures ReadChars((Quoted(ps) + s)[1..], []) == Done(PiecesValue(ps), s)
  {
    assert (Quoted(ps) + s)[1..] == PiecesText(ps) + [QUOTE] + s;
    CharsRead(ps, s, []);
    assert [] + PiecesValue(ps) == PiecesValue(ps);
  }

  lemma EmptyRead(pad: Text, s: Text)
    requires Blank(pad)
    ensures ReadArray(([OPEN_ARRAY] + pad + [CLOSE_ARRAY] + s)[1..]) == Done(Arr([]), s)
    ensures ReadObject(([OPEN_OBJECT] + pad + [CLOSE_OBJECT] + s)[1..]) == Done(Obj(map[]), s)
  {
    assert ([OPEN_ARRAY] + pad + [CLOSE_ARRAY] + s)[1..] == pad + ([CLOSE_ARRAY] + s);
    SkipBlankOver(pad, [CLOSE_ARRAY] + s);
    assert ([OPEN_OBJECT] + pad + [CLOSE_OBJECT] + s)[1..] == pad + ([CLOSE_OBJECT] + s);
    SkipBlankOver(pad, [CLOSE_OBJECT] + s);
  }

  lemma SkipBlankTwice(s: Text)
    ensures SkipBlank(SkipBlank(s)) == SkipBlank(s)
  {
    SkipBlankOver([], SkipBlank(s));
    assert [] + SkipBlank(s) == SkipBlank(s);
  }

  /** What follows the first value of an item list, up to the end of the array and `s` after it. */
  function AfterItem(items: Items, s: Text): Text {
    items.slot.after
    + (if items.NextItem? then [COMMA] + (YieldItems(items.rest) + [CLOSE_ARRAY] + s) else [CLOSE_ARRAY] + s)
  }

  lemma ItemsSplit(items: Items, s: Text)
    ensures YieldItems(items) + [CLOSE_ARRAY] + s
         == items.slot.before + Yield(items.slot.value) + AfterItem(items, s)
  {
    var head := items.slot.before + Yield(items.slot.value);
    if items.NextItem? {
      var w := YieldItems(items.rest);
      assert YieldItems(items) == head + items.slot.after + ([COMMA] + w);
    } else {
      assert YieldItems(items) == head + items.slot.after + [];
    }
  }

  lemma SkipAfterItem(items: Items, s: Text)
    requires WellFormedItems(items)
    ensures SkipBlank(AfterItem(items, s)) == AfterItem(items, s)[|items.slot.after|..]
    ensures EndsNumber(AfterItem(items, s))
  {
    var tail := AfterItem(items, s)[|items.slot.after|..];
    assert AfterItem(items, s) == items.slot.after + tail;
    SkipBlankOver(items.slot.after, tail);
    assert AfterItem(items, s)[0] == if items.slot.after == [] then tail[0] else items.slot.after[0];
  }

  lemma {:induction false} ItemsRead(items: Items, s: Text, acc: seq<Json>)
    requires WellFormedItems(items)
    ensures ReadItems(YieldItems(items) + [CLOSE_ARRAY] + s, acc)
         == if AcceptableItems(items) then Done(Arr(acc + Values(items)), s) else Fail
    decreases items, 2
  {
    var value := items.slot.value;
    var after := AfterItem(items, s);
    ItemsSplit(items, s);
    SkipAfterItem(items, s);
    DerivationRead(items.slot.before, value, after);
    var b := after[|items.slot.after|..];
    if items.NextItem? {
      var w := YieldItems(items.rest) + [CLOSE_ARRAY] + s;
      assert b[0] == COMMA && b[1..] == w;
      ItemsRead(items.rest, s, acc + [Meaning(value)]);
      assert acc + [Meaning(value)] + Values(items.rest) == acc + Values(items);
    } else {
      assert b[0] == CLOSE_ARRAY && b[1..] == s;
      assert Values(items) == [Meaning(value)];
    }
  }

  lemma NotClosing(t: Tree)
    requires WellFormed(t)
    ensures Yield(t) != [] && Yield(t)[0] != CLOSE_ARRAY
  {
    FirstOfYield(t, []);
    if t.NumberTree? {
      var l := t.literal;
      assert LiteralText(l)[0] == if l.negative then MINUS else l.whole[0];
    }
  }

  lemma ItemsReadSkips(s: Text)
    ensures ReadItems(SkipBlank(s), []) == ReadItems(s, [])
  {
    SkipBlankTwice(s);
    assert ReadValue(SkipBlank(s)) == ReadValue(s);
  }

  /** An item list never starts with the end of the array. */
  lemma ItemsDoNotClose(items: Items, s: Text)
    requires WellFormedItems(items)
    ensures var w := SkipBlank(YieldItems(items) + [CLOSE_ARRAY] + s); w != [] && w[0] != CLOSE_ARRAY
  {
    ItemsSplit(items, s);
    var v := Yield(items.slot.value) + AfterItem(items, s);
    FirstOfYield(items.slot.value, AfterItem(items, s));
    NotClosing(items.slot.value);
    Associate(items.slot.before, Yield(items.slot.value), AfterItem(items, s));
    SkipBlankOver(items.slot.before, v);
  }

  lemma {:induction false} ArrayRead(items: Items, s: Text)
    requires WellFormedItems(items)
    ensures ([OPEN_ARRAY] + YieldItems(items) + [CLOSE_ARRAY] + s)[0] == OPEN_ARRAY
    ensures ReadArray(([OPEN_ARRAY] + YieldItems(items) + [CLOSE_ARRAY] + s)[1..]) == Outcome(ArrayTree(items), s)
    decreases items, 3
  {
    var w := YieldItems(items) + [CLOSE_ARRAY] + s;
    Bracketed(OPEN_ARRAY, YieldItems(items), CLOSE_ARRAY, s);
    assert ([OPEN_ARRAY] + w)[1..] == w;
    ItemsRead(items, s, []);
    assert [] + Values(items) == Values(items);
    ItemsDoNotClose(items, s);
    ItemsReadSkips(w);
  }

  lemma KeyReads(p: Pair, s: Text)
    requires Blank(p.before) && WellFormedPieces(p.key) && Blank(p.middle)
    ensures ReadKey(p.before + (Quoted(p.key) + (p.middle + ([COLON] + s)))) == Done(PiecesValue(p.key), s)
    ensures SkipBlank(p.before + (Quoted(p.key) + (p.middle + ([COLON] + s))))
      == Quoted(p.key) + (p.middle + ([COLON] + s))
  {
    var a := p.middle + ([COLON] + s);
    SkipBlankOver(p.before, Quoted(p.key) + a);
    StringRead(p.key, a);
    SkipBlankOver(p.middle, [COLON] + s);
    assert ([COLON] + s)[1..] == s;
  }

  function AfterMember(members: Members, s: Text): Text {
    members.pair.slot.after
    + (if members.NextMember? then [COMMA] + (YieldMembers(members.rest) + [CLOSE_OBJECT] + s) else [CLOSE_OBJECT] + s)
  }

  lemma RegroupPair(before: Text, quoted: Text, middle: Text, body: Text, after: Text, t: Text)
    ensures before + quoted + middle + [COLON] + (body + after) + t
         == before + (quoted + (middle + ([COLON] + (body + (after + t)))))
  {
    Associate(body, after, t);
    var rest := body + (after + t);
    Associate(before + quoted + middle + [COLON], body + after, t);
    Associate(before + quoted + middle, [COLON], rest);
    Associate(before + quoted, middle, [COLON] + rest);
    Associate(before, quoted, middle + ([COLON] + rest));
  }

  lemma MembersSplit(members: Members, s: Text)
    ensures YieldMembers(members) + [CLOSE_OBJECT] + s
         == members.pair.before + (Quoted(members.pair.key) + (members.pair.middle + ([COLON]
            + (members.pair.slot.before + Yield(members.pair.slot.value) + AfterMember(members, s)))))
  {
    var p := members.pair;
    var body := p.slot.before + Yield(p.slot.value);
    var pair := YieldPair(p);
    assert YieldSlot(p.slot) == body + p.slot.after;
    assert pair == p.before + Quoted(p.key) + p.middle + [COLON] + (body + p.slot.after);
    var t := if members.NextMember? then [COMMA] + (YieldMembers(members.rest) + [CLOSE_OBJECT] + s) else [CLOSE_OBJECT] + s;
    assert YieldMembers(members) + [CLOSE_OBJECT] + s == pair + t by {
      RegroupMembers(pair, if members.NextMember? then YieldMembers(members.rest) else [], s);
    }
    RegroupPair(p.before, Quoted(p.key), p.middle, body, p.slot.after, t);
  }

  lemma RegroupMembers(pair: Text, w: Text, s: Text)
    ensures pair + ([COMMA] + w) + [CLOSE_OBJECT] + s == pair + ([COMMA] + (w + [CLOSE_OBJECT] + s))
    ensures pair + [] + [CLOSE_OBJECT] + s == pair + ([CLOSE_OBJECT] + s)
  {
  }

  lemma SkipAfterMember(members: Members, s: Text)
    requires WellFormedMembers(members)
    ensures SkipBlank(AfterMember(members, s)) == AfterMember(members, s)[|members.pair.slot.after|..]
    ensures EndsNumber(AfterMember(members, s))
  {
    var after := members.pair.slot.after;
    var tail := AfterMember(members, s)[|after|..];
    assert AfterMember(members, s) == after + tail;
    SkipBlankOver(after, tail);
    assert AfterMember(members, s)[0] == if after == [] then tail[0] else after[0];
  }

  lemma {:induction false} MembersRead(members: Members, s: Text, acc: map<Text, Json>)
    requires WellFormedMembers(members)
    ensures ReadMembers(YieldMembers(members) + [CLOSE_OBJECT] + s, acc)
         == if AcceptableMembers(members, acc.Keys) then Done(Obj(Collect(members, acc)), s) else Fail
    decreases members, 2
  {
    var p := members.pair;
    var key := PiecesValue(p.key);
    var now := acc[key := Meaning(p.slot.value)];
    var after := AfterMember(members, s);
    MembersSplit(members, s);
    KeyReads(p, p.slot.before + Yield(p.slot.value) + after);
    SkipAfterMember(members, s);
    DerivationRead(p.slot.before, p.slot.value, after);
    var c := after[|p.slot.after|..];
    if members.NextMember? {
      assert c[0] == COMMA && c[1..] == YieldMembers(members.rest) + [CLOSE_OBJECT] + s;
      assert now.Keys == acc.Keys + {key};
      MembersRead(members.rest, s, now);
    } else {
      assert c[0] == CLOSE_OBJECT && c[1..] == s;
    }
  }

  lemma MembersReadSkips(s: Text)
    ensures ReadMembers(SkipBlank(s), map[]) == ReadMembers(s, map[])
  {
    SkipBlankTwice(s);
    assert ReadKey(SkipBlank(s)) == ReadKey(s);
  }

  /** A member list never starts with the end of the object. */
  lemma MembersDoNotClose(members: Members, s: Text)
    requires WellFormedMembers(members)
    ensures var w := SkipBlank(YieldMembers(members) + [CLOSE_OBJECT] + s); w != [] && w[0] == QUOTE
  {
    MembersSplit(members, s);
    var p := members.pair;
    KeyReads(p, p.slot.before + Yield(p.slot.value) + AfterMember(members, s));
  }

  lemma {:induction false} ObjectRead(members: Members, s: Text)
    requires WellFormedMembers(members)
    ensures ([OPEN_OBJECT] + YieldMembers(members) + [CLOSE_OBJECT] + s)[0] == OPEN_OBJECT
    ensures ReadObject(([OPEN_OBJECT] + YieldMembers(members) + [CLOSE_OBJECT] + s)[1..])
      == Outcome(ObjectTree(members), s)
    decreases members, 3
  {
    var w := YieldMembers(members) + [CLOSE_OBJECT] + s;
    Bracketed(OPEN_OBJECT, YieldMembers(members), CLOSE_OBJECT, s);
    assert ([OPEN_OBJECT] + w)[1..] == w;
    var none: map<Text, Json> := map[];
    assert none.Keys == {};
    MembersRead(members, s, none);
    MembersDoNotClose(members, s);
    MembersReadSkips(w);
  }

  // ---------------------------------------------------------------- soundness

  /** Whatever is read was generated by an acceptable derivation with that meaning. */
  lemma {:induction false} DerivationOf(s: Text) returns (pre: Text, t: Tree)
    requires ReadValue(s).Done?
    ensures Blank(pre) && WellFormed(t) && Acceptable(t) && Meaning(t) == ReadValue(s).value
    ensures s == pre + Yield(t) + ReadValue(s).rest
    decreases |s|, 1
  {
    pre := SkipBlankSplits(s);
    var u := SkipBlank(s);
    t := BareDerivationOf(u, s);
    Associate(pre, Yield(t), ReadValue(s).rest);
  }

  lemma {:induction false} BareDerivationOf(u: Text, s: Text) returns (t: Tree)
    requires u == SkipBlank(s) && ReadValue(s).Done?
    ensures WellFormed(t) && Acceptable(t) && Meaning(t) == ReadValue(s).value
    ensures u == Yield(t) + ReadValue(s).rest
    decreases |s|, 0
  {
    assert u == [u[0]] + u[1..];
    if u[0] == NULL_WORD[0] {
      t := NullTree;
    } else if u[0] == TRUE_WORD[0] {
      t := TrueTree;
    } else if u[0] == FALSE_WORD[0] {
      t := FalseTree;
    } else if u[0] == QUOTE {
      var ps := CharsSplit(u[1..], []);
      t := StringTree(ps);
      assert [] + PiecesValue(ps) == PiecesValue(ps);
      Bracketed(QUOTE, PiecesText(ps), QUOTE, ReadValue(s).rest);
    } else if u[0] == OPEN_ARRAY {
      t := ArrayDerivationOf(u[1..]);
    } else if u[0] == OPEN_OBJECT {
      t := ObjectDerivationOf(u[1..]);
    } else {
      LiteralSplits(u);
      t := NumberTree(ReadLiteral(u).value);
    }
  }

  lemma Bracketed(open: Unit, body: Text, close: Unit, rest: Text)
    ensures [open] + (body + [close] + rest) == [open] + body + [close] + rest
  {
  }

  lemma {:induction false} ArrayDerivationOf(s: Text) returns (t: Tree)
    requires ReadArray(s).Done?
    ensures WellFormed(t) && Acceptable(t) && Meaning(t) == ReadArray(s).value
    ensures [OPEN_ARRAY] + s == Yield(t) + ReadArray(s).rest
    decreases |s|, 3
  {
    var rest := ReadArray(s).rest;
    var pad := SkipBlankSplits(s);
    var u := SkipBlank(s);
    if u != [] && u[0] == CLOSE_ARRAY {
      t := EmptyArrayTree(pad);
      assert u == [CLOSE_ARRAY] + rest;
      Associate(pad, [CLOSE_ARRAY], rest);
      Bracketed(OPEN_ARRAY, pad, CLOSE_ARRAY, rest);
    } else {
      ItemsReadSkips(s);
      var items := ItemsOf(s, []);
      t := ArrayTree(items);
      assert [] + Values(items) == Values(items);
      Bracketed(OPEN_ARRAY, YieldItems(items), CLOSE_ARRAY, rest);
    }
  }

  lemma {:induction false} ItemsOf(s: Text, acc: seq<Json>) returns (items: Items)
    requires ReadItems(s, acc).Done?
    ensures WellFormedItems(items) && AcceptableItems(items)
    ensures ReadItems(s, acc).value == Arr(acc + Values(items))
    ensures s == YieldItems(items) + [CLOSE_ARRAY] + ReadItems(s, acc).rest
    decreases |s|, 2
  {
    var rest := ReadItems(s, acc).rest;
    var before, value := DerivationOf(s);
    var a := ReadValue(s).rest;
    var after := SkipBlankSplits(a);
    var b := SkipBlank(a);
    var slot := Slot(before, value, after);
    Associate(before + Yield(value), after, b);
    assert YieldSlot(slot) == before + Yield(value) + after;
    assert s == YieldSlot(slot) + b;
    if b[0] == CLOSE_ARRAY {
      items := LastItem(slot);
      assert Values(items) == [Meaning(value)];
      LastItemYields(slot, b, rest);
    } else {
      var more := ItemsOf(b[1..], acc + [Meaning(value)]);
      items := NextItem(slot, more);
      Associate(acc, [Meaning(value)], Values(more));
      NextItemYields(slot, more, b, rest);
    }
  }

  lemma LastItemYields(slot: Slot, b: Text, rest: Text)
    requires b != [] && b[0] == CLOSE_ARRAY && b[1..] == rest
    ensures YieldSlot(slot) + b == YieldItems(LastItem(slot)) + [CLOSE_ARRAY] + rest
  {
    assert b == [CLOSE_ARRAY] + rest;
    assert YieldSlot(slot) + [] == YieldSlot(slot);
    Associate(YieldSlot(slot), [CLOSE_ARRAY], rest);
  }

  lemma NextItemYields(slot: Slot, more: Items, b: Text, rest: Text)
    requires b != [] && b[0] == COMMA && b[1..] == YieldItems(more) + [CLOSE_ARRAY] + rest
    ensures YieldSlot(slot) + b == YieldItems(NextItem(slot, more)) + [CLOSE_ARRAY] + rest
  {
    assert b == [COMMA] + b[1..];
    Separated(YieldSlot(slot), YieldItems(more), CLOSE_ARRAY, rest);
  }

  lemma Separated(first: Text, more: Text, close: Unit, rest: Text)
    ensures first + ([COMMA] + (more + [close] + rest)) == first + ([COMMA] + more) + [close] + rest
  {
  }

  lemma {:induction false} ObjectDerivationOf(s: Text) returns (t: Tree)
    requires ReadObject(s).Done?
    ensures WellFormed(t) && Acceptable(t) && Meaning(t) == ReadObject(s).value
    ensures [OPEN_OBJECT] + s == Yield(t) + ReadObject(s).rest
    decreases |s|, 3
  {
    var rest := ReadObject(s).rest;
    var pad := SkipBlankSplits(s);
    var u := SkipBlank(s);
    if u != [] && u[0] == CLOSE_OBJECT {
      t := EmptyObjectTree(pad);
      assert u == [CLOSE_OBJECT] + rest;
      Associate(pad, [CLOSE_OBJECT], rest);
      Bracketed(OPEN_OBJECT, pad, CLOSE_OBJECT, rest);
    } else {
      MembersReadSkips(s);
      var members := MembersOfAll(s);
      t := ObjectTree(members);
      Bracketed(OPEN_OBJECT, YieldMembers(members), CLOSE_OBJECT, rest);
    }
  }

  lemma Assemble(before: Text, quoted: Text, middle: Text, rest: Text, t: Text, a: Text, b: Text)
    requires t == quoted + a && a == middle + b && b == [COLON] + rest
    ensures before + t == before + quoted + middle + [COLON] + rest
  {
    Associate(before, quoted, a);
    Associate(before + quoted, middle, b);
    Associate(before + quoted + middle, [COLON], rest);
  }

  /** The quoted key at the start of a text. */
  lemma QuotedKey(t: Text) returns (key: seq<Piece>)
    requires t != [] && t[0] == QUOTE && ReadChars(t[1..], []).Done?
    ensures WellFormedPieces(key) && PiecesValue(key) == ReadChars(t[1..], []).value
    ensures t == Quoted(key) + ReadChars(t[1..], []).rest
  {
    key := CharsSplit(t[1..], []);
    assert [] + PiecesValue(key) == PiecesValue(key);
    assert t == [QUOTE] + t[1..];
    Bracketed(QUOTE, PiecesText(key), QUOTE, ReadChars(t[1..], []).rest);
  }

  lemma KeyOf(s: Text) returns (before: Text, key: seq<Piece>, middle: Text)
    requires ReadKey(s).Done?
    ensures Blank(before) && WellFormedPieces(key) && Blank(middle)
    ensures ReadKey(s).value == PiecesValue(key)
    ensures s == before + Quoted(key) + middle + [COLON] + ReadKey(s).rest
  {
    before := SkipBlankSplits(s);
    var t := SkipBlank(s);
    key := QuotedKey(t);
    var a := ReadChars(t[1..], []).rest;
    middle := SkipBlankSplits(a);
    var b := SkipBlank(a);
    assert b == [COLON] + ReadKey(s).rest;
    Assemble(before, Quoted(key), middle, ReadKey(s).rest, t, a, b);
  }

  /** The next member of an object, up to the white space after its value. */
  lemma {:induction false} PairOf(s: Text) returns (pair: Pair)
    requires ReadKey(s).Done? && ReadValue(ReadKey(s).rest).Done?
    ensures Blank(pair.before) && WellFormedPieces(pair.key) && Blank(pair.middle)
    ensures Blank(pair.slot.before) && WellFormed(pair.slot.value) && Acceptable(pair.slot.value)
      && Blank(pair.slot.after)
    ensures PiecesValue(pair.key) == ReadKey(s).value && Meaning(pair.slot.value) == ReadValue(ReadKey(s).rest).value
    ensures s == YieldPair(pair) + SkipBlank(ReadValue(ReadKey(s).rest).rest)
    decreases |s|, 1
  {
    var keyBefore, key, middle := KeyOf(s);
    var v := ReadKey(s).rest;
    var before, value := DerivationOf(v);
    var a := ReadValue(v).rest;
    var after := SkipBlankSplits(a);
    var slot := Slot(before, value, after);
    pair := Pair(keyBefore, key, middle, slot);
    Associate(before + Yield(value), after, SkipBlank(a));
    Associate(keyBefore + Quoted(key) + middle + [COLON], YieldSlot(slot), SkipBlank(a));
  }

  lemma {:induction false} MembersOf(s: Text, acc: map<Text, Json>) returns (members: Members)
    requires ReadMembers(s, acc).Done?
    ensures WellFormedMembers(members) && AcceptableMembers(members, acc.Keys)
    ensures ReadMembers(s, acc).value == Obj(Collect(members, acc))
    ensures s == YieldMembers(members) + [CLOSE_OBJECT] + ReadMembers(s, acc).rest
    decreases |s|, 2, 0
  {
    var rest := ReadMembers(s, acc).rest;
    var pair := PairOf(s);
    var b := SkipBlank(ReadValue(ReadKey(s).rest).rest);
    if b[0] == CLOSE_OBJECT {
      members := LastMember(pair);
      LastYields(pair, b, rest);
    } else {
      var now := acc[ReadKey(s).value := Meaning(pair.slot.value)];
      assert now.Keys == acc.Keys + {PiecesValue(pair.key)};
      var more := MembersOf(b[1..], now);
      members := NextMember(pair, more);
      NextYields(pair, more, b, rest);
    }
  }

  lemma LastYields(pair: Pair, b: Text, rest: Text)
    requires b != [] && b[0] == CLOSE_OBJECT && b[1..] == rest
    ensures YieldPair(pair) + b == YieldMembers(LastMember(pair)) + [CLOSE_OBJECT] + rest
  {
    assert b == [CLOSE_OBJECT] + rest;
    assert YieldPair(pair) + [] == YieldPair(pair);
    Associate(YieldPair(pair), [CLOSE_OBJECT], rest);
  }

  lemma NextYields(pair: Pair, more: Members, b: Text, rest: Text)
    requires b != [] && b[0] == COMMA && b[1..] == YieldMembers(more) + [CLOSE_OBJECT] + rest
    ensures YieldPair(pair) + b == YieldMembers(NextMember(pair, more)) + [CLOSE_OBJECT] + rest
  {
    assert b == [COMMA] + b[1..];
    Separated(YieldPair(pair), YieldMembers(more), CLOSE_OBJECT, rest);
  }

  lemma {:induction false} MembersOfAll(s: Text) returns (members: Members)
    requires ReadMembers(s, map[]).Done?
    ensures WellFormedMembers(members) && AcceptableMembers(members, {})
    ensures ReadMembers(s, map[]).value == Obj(Collect(members, map[]))
    ensures s == YieldMembers(members) + [CLOSE_OBJECT] + ReadMembers(s, map[]).rest
    decreases |s|, 2, 1
  {
    var none: map<Text, Json> := map[];
    assert none.Keys == {};
    members := MembersOf(s, none);
  }

  // ---------------------------------------------------------------- exactness

  /** `text` is a JSON text of RFC 8259 within the limits of the bridge, and denotes `v`. */
  ghost predicate Denotes(text: Text, v: Json) {
    exists pre, t, post :: IsDerivation(text, pre, t, post) && Meaning(t) == v
  }

  predicate IsDerivation(text: Text, pre: Text, t: Tree, post: Text) {
    Blank(pre) && Blank(post) && WellFormed(t) && Acceptable(t) && text == pre + Yield(t) + post
  }

  lemma ParseExact(text: Text, v: Json)
    ensures Parse(text) == Some(v) <==> Denotes(text, v)
  {
    if Parse(text) == Some(v) {
      var pre, t := DerivationOf(text);
      var rest := ReadValue(text).rest;
      var post := SkipBlankSplits(rest);
      assert rest == post + [] == post;
      assert IsDerivation(text, pre, t, post);
    }
    if Denotes(text, v) {
      var pre, t, post :| IsDerivation(text, pre, t, post) && Meaning(t) == v;
      DerivationRead(pre, t, post);
      SkipBlankOver(post, []);
      assert post + [] == post;
    }
  }

  /** A text of the grammar is refused exactly when a number is out of range or an object repeats a key. */
  lemma GrammarExact(pre: Text, t: Tree, post: Text)
    requires Blank(pre) && WellFormed(t) && Blank(post)
    ensures Parse(pre + Yield(t) + post) == if Acceptable(t) then Some(Meaning(t)) else None
  {
    DerivationRead(pre, t, post);
    SkipBlankOver(post, []);
    assert post + [] == post;
  }

  /** Nothing else is accepted: a text without such a derivation is refused. */
  lemma ParseRefuses(text: Text)
    ensures Parse(text) == None <==> !exists v :: Denotes(text, v)
  {
    if Parse(text).Some? {
      ParseExact(text, Parse(text).value);
    }
    if v :| Denotes(text, v) {
      ParseExact(text, v);
    }
  }
}
