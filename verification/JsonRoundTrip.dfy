/** What serializing and parsing make of a document: everything survives but numbers that are written inexactly. */
module JsonRoundTrip {
  import opened Texts
  import opened Json
  import opened JsonReading
  import opened JsonProofs

  lemma {:induction false} DecimalDigits(n: nat)
    ensures Digits(Decimal(n)) && Decimal(n) != [] && DigitsValue(Decimal(n)) == n
    ensures Decimal(n)[0] == 0x30 ==> n == 0
    ensures n < 10 ==> |Decimal(n)| == 1
  {
    if n >= 10 {
      DecimalDigits(n / 10);
      assert Decimal(n)[..|Decimal(n)| - 1] == Decimal(n / 10);
    }
  }

  lemma {:induction false} TextPiecesValue(t: Text)
    ensures WellFormedPieces(TextPieces(t)) && PiecesValue(TextPieces(t)) == t
  {
    if t != [] {
      TextPiecesValue(t[1..]);
      UnitPieceValue(t[0]);
      assert TextPieces(t)[1..] == TextPieces(t[1..]);
      assert t == [t[0]] + t[1..];
    }
  }

  lemma UnitPieceValue(u: Unit)
    ensures WellFormedPiece(UnitPiece(u)) && PieceUnit(UnitPiece(u)) == u
  {
  }

  function IntegerLiteral(n: int): Literal {
    Literal(n < 0, Decimal(if n < 0 then -n else n), None, None)
  }

  lemma IntegerLiteralReads(n: int)
    requires IsInt64(n)
    ensures WellFormedLiteral(IntegerLiteral(n)) && AcceptableLiteral(IntegerLiteral(n))
    ensures LiteralText(IntegerLiteral(n)) == IntegerText(n) && NumberValue(IntegerLiteral(n)) == Int(n)
  {
    var digits := Decimal(if n < 0 then -n else n);
    DecimalDigits(if n < 0 then -n else n);
    assert digits + [] + [] == digits;
    assert [MINUS] + digits + [] + [] == [MINUS] + digits;
    assert [] + digits + [] + [] == digits;
  }

  /** The derivation behind the serialized text: no white space, keys in ordinal order. */
  ghost function Canonical(d: Doubles, v: Json): Tree
    decreases v
  {
    match v
    case Null => NullTree
    case Bool(b) => if b then TrueTree else FalseTree
    case Int(n) => NumberTree(IntegerLiteral(n))
    case Num(l) => NumberTree(d.Rewritten(l))
    case Str(t) => StringTree(TextPieces(t))
    case Arr(items) => if items == [] then EmptyArrayTree([]) else ArrayTree(CanonicalItems(d, v, 0))
    case Obj(m) =>
      var keys := Sorted(m.Keys);
      if keys == [] then EmptyObjectTree([]) else ObjectTree(CanonicalMembers(d, v, keys, 0))
  }

  ghost function CanonicalItems(d: Doubles, v: Json, i: nat): Items
    requires v.Arr? && i < |v.items|
    decreases v, |v.items| - i
  {
    var slot := Slot([], Canonical(d, v.items[i]), []);
    if i + 1 == |v.items| then LastItem(slot) else NextItem(slot, CanonicalItems(d, v, i + 1))
  }

  ghost function CanonicalMembers(d: Doubles, v: Json, keys: seq<Text>, i: nat): Members
    requires v.Obj? && i < |keys| && Elements(keys) == v.members.Keys
    decreases v, |keys| - i
  {
    assert keys[i] in Elements(keys);
    var pair := Pair([], TextPieces(keys[i]), [], Slot([], Canonical(d, v.members[keys[i]]), []));
    if i + 1 == |keys| then LastMember(pair) else NextMember(pair, CanonicalMembers(d, v, keys, i + 1))
  }

  /** The literal written for a number is one of the grammar. */
  lemma RewrittenLiteral(d: Doubles, l: Literal)
    requires ValidDoubles(d) && WellFormedLiteral(l) && !Overflows(l)
    ensures WellFormedLiteral(d.Rewritten(l)) && !IsInteger(d.Rewritten(l))
    ensures RoundsPositive(l) <==> 0 < d.nearest(l) < SIGN_BIT
  {
    assert ReadsWithSign(d, l);
    assert IsFixedPoint(d.shown(d.nearest(l)));
  }

  /**
   * The serialized text is derived from the grammar. It denotes the document with its numbers as they are written, and
   * breaks no limit of the bridge exactly when each of these can be read.
   */
  lemma {:induction false} CanonicalCorrect(d: Doubles, v: Json)
    requires ValidDoubles(d) && Holds(v)
    ensures WellFormed(Canonical(d, v)) && Yield(Canonical(d, v)) == Serialize(d, v)
    ensures Meaning(Canonical(d, v)) == Printed(d, v)
    ensures Acceptable(Canonical(d, v)) <==> Everywhere(InRange(d), v)
    decreases v
  {
    match v {
      case Null =>
      case Bool(_) =>
      case Int(n) => IntegerLiteralReads(n);
      case Num(l) => RewrittenLiteral(d, l);
      case Str(t) => TextPiecesValue(t);
      case Arr(_) => CanonicalArrayCorrect(d, v);
      case Obj(_) => CanonicalObjectCorrect(d, v);
    }
  }

  lemma {:induction false} CanonicalArrayCorrect(d: Doubles, v: Json)
    requires ValidDoubles(d) && v.Arr? && Holds(v)
    ensures WellFormed(Canonical(d, v)) && Yield(Canonical(d, v)) == Serialize(d, v)
    ensures Meaning(Canonical(d, v)) == Printed(d, v)
    ensures Acceptable(Canonical(d, v)) <==> Everywhere(InRange(d), v)
    decreases v, |v.items| + 1
  {
    if v.items != [] {
      CanonicalItemsCorrect(d, v, 0);
      EveryItemMeans(InRange(d), v, 0);
      assert Printed(d, v).items[0..] == Printed(d, v).items;
      assert [] + YieldItems(CanonicalItems(d, v, 0)) == YieldItems(CanonicalItems(d, v, 0));
    }
  }

  lemma {:induction false} CanonicalObjectCorrect(d: Doubles, v: Json)
    requires ValidDoubles(d) && v.Obj? && Holds(v)
    ensures WellFormed(Canonical(d, v)) && Yield(Canonical(d, v)) == Serialize(d, v)
    ensures Meaning(Canonical(d, v)) == Printed(d, v)
    ensures Acceptable(Canonical(d, v)) <==> Everywhere(InRange(d), v)
    decreases v, |Sorted(v.members.Keys)| + 1
  {
    var keys := Sorted(v.members.Keys);
    if keys == [] {
      assert v.members.Keys == Elements(keys) == {};
      assert v.members == map[];
    } else {
      var none: map<Text, Json> := map[];
      assert none.Keys == Elements(keys[..0]) == {};
      CanonicalMembersAcceptable(d, v, keys, 0);
      CanonicalMembersCollect(d, v, keys, 0, none);
      CanonicalMembersYield(d, v, keys, 0);
      assert [] + YieldMembers(CanonicalMembers(d, v, keys, 0)) == YieldMembers(CanonicalMembers(d, v, keys, 0));
      EveryMemberOfAll(InRange(d), v, keys);
    }
  }

  /** The items from `i` on have the property. */
  predicate EveryItem(p: Literal -> bool, v: Json, i: nat)
    requires v.Arr? && i <= |v.items|
    decreases |v.items| - i
  {
    i < |v.items| ==> Everywhere(p, v.items[i]) && EveryItem(p, v, i + 1)
  }

  lemma {:induction false} EveryItemMeans(p: Literal -> bool, v: Json, i: nat)
    requires v.Arr? && i <= |v.items|
    ensures EveryItem(p, v, i) <==> forall j :: i <= j < |v.items| ==> Everywhere(p, v.items[j])
    decreases |v.items| - i
  {
    if i < |v.items| { EveryItemMeans(p, v, i + 1); }
  }

  /** The members of the keys from `i` on have the property. */
  predicate EveryMember(p: Literal -> bool, v: Json, keys: seq<Text>, i: nat)
    requires v.Obj? && i <= |keys| && Elements(keys) == v.members.Keys
    decreases |keys| - i
  {
    i < |keys| ==>
      assert keys[i] in Elements(keys);
      Everywhere(p, v.members[keys[i]]) && EveryMember(p, v, keys, i + 1)
  }

  lemma {:induction false} EveryMemberMeans(p: Literal -> bool, v: Json, keys: seq<Text>, i: nat)
    requires v.Obj? && i <= |keys| && Elements(keys) == v.members.Keys
    ensures EveryMember(p, v, keys, i) <==> forall k :: k in keys[i..] ==> k in v.members && Everywhere(p, v.members[k])
    decreases |keys| - i
  {
    if i < |keys| {
      EveryMemberMeans(p, v, keys, i + 1);
      assert keys[i] in Elements(keys);
      assert keys[i..] == [keys[i]] + keys[i + 1..];
    }
  }

  lemma EveryMemberOfAll(p: Literal -> bool, v: Json, keys: seq<Text>)
    requires v.Obj? && Elements(keys) == v.members.Keys
    ensures EveryMember(p, v, keys, 0) <==> Everywhere(p, v)
  {
    EveryMemberMeans(p, v, keys, 0);
    assert keys[0..] == keys;
    assert forall k :: k in Elements(keys) <==> k in keys;
  }

  lemma {:induction false} CanonicalItemsCorrect(d: Doubles, v: Json, i: nat)
    requires ValidDoubles(d) && v.Arr? && i < |v.items| && Holds(v)
    ensures WellFormedItems(CanonicalItems(d, v, i))
    ensures AcceptableItems(CanonicalItems(d, v, i)) <==> EveryItem(InRange(d), v, i)
    ensures Values(CanonicalItems(d, v, i)) == Printed(d, v).items[i..]
    ensures (if i > 0 then [COMMA] else []) + YieldItems(CanonicalItems(d, v, i)) == SerializeItems(d, v, i)
    decreases v, |v.items| - i
  {
    CanonicalCorrect(d, v.items[i]);
    if i + 1 < |v.items| { CanonicalItemsCorrect(d, v, i + 1); }
    ItemValues(d, v, i);
    ItemYield(d, v, i);
  }

  lemma ItemValues(d: Doubles, v: Json, i: nat)
    requires v.Arr? && i < |v.items|
    requires WellFormedItems(CanonicalItems(d, v, i)) && Meaning(Canonical(d, v.items[i])) == Printed(d, v.items[i])
    requires i + 1 < |v.items| ==> Values(CanonicalItems(d, v, i + 1)) == Printed(d, v).items[i + 1..]
    ensures Values(CanonicalItems(d, v, i)) == Printed(d, v).items[i..]
  {
    assert Printed(d, v).items[i..] == [Printed(d, v.items[i])] + Printed(d, v).items[i + 1..];
  }

  lemma ItemYield(d: Doubles, v: Json, i: nat)
    requires v.Arr? && i < |v.items| && Yield(Canonical(d, v.items[i])) == Serialize(d, v.items[i])
    requires i + 1 < |v.items| ==> [COMMA] + YieldItems(CanonicalItems(d, v, i + 1)) == SerializeItems(d, v, i + 1)
    ensures (if i > 0 then [COMMA] else []) + YieldItems(CanonicalItems(d, v, i)) == SerializeItems(d, v, i)
  {
    var lead := if i > 0 then [COMMA] else [];
    var text := Serialize(d, v.items[i]);
    assert [] + text + [] == text;
    if i + 1 == |v.items| {
      assert SerializeItems(d, v, i + 1) == [];
    } else {
      Associate(lead, text, SerializeItems(d, v, i + 1));
    }
  }

  lemma {:induction false} CanonicalMembersAcceptable(d: Doubles, v: Json, keys: seq<Text>, i: nat)
    requires ValidDoubles(d) && v.Obj? && i < |keys| && keys == Sorted(v.members.Keys) && Holds(v)
    ensures WellFormedMembers(CanonicalMembers(d, v, keys, i))
    ensures AcceptableMembers(CanonicalMembers(d, v, keys, i), Elements(keys[..i])) <==>
      EveryMember(InRange(d), v, keys, i)
    decreases v, |keys| - i, 0
  {
    assert keys[i] in Elements(keys);
    CanonicalCorrect(d, v.members[keys[i]]);
    TextPiecesValue(keys[i]);
    NewKey(keys, i);
    if i + 1 < |keys| {
      CanonicalMembersAcceptable(d, v, keys, i + 1);
    }
  }

  /** `acc` holds the members of the first `i` keys. */
  ghost predicate Collected(m: map<Text, Json>, keys: seq<Text>, i: nat, acc: map<Text, Json>) {
    i <= |keys| && acc.Keys == Elements(keys[..i]) && forall k :: k in acc ==> k in m && acc[k] == m[k]
  }

  lemma CollectedNext(m: map<Text, Json>, keys: seq<Text>, i: nat, acc: map<Text, Json>)
    requires Ascending(keys) && Elements(keys) == m.Keys && i < |keys| && Collected(m, keys, i, acc)
    ensures keys[i] in m && Collected(m, keys, i + 1, acc[keys[i] := m[keys[i]]])
  {
    assert keys[i] in Elements(keys);
    NewKey(keys, i);
  }

  lemma {:induction false} CanonicalMembersCollect(d: Doubles, v: Json, keys: seq<Text>, i: nat, acc: map<Text, Json>)
    requires ValidDoubles(d) && v.Obj? && i < |keys| && keys == Sorted(v.members.Keys) && Holds(v)
    requires WellFormedMembers(CanonicalMembers(d, v, keys, i))
    requires Collected(Printed(d, v).members, keys, i, acc)
    ensures Collect(CanonicalMembers(d, v, keys, i), acc) == Printed(d, v).members
    decreases v, |keys| - i, 0
  {
    var key := keys[i];
    var printed := Printed(d, v).members;
    assert printed.Keys == v.members.Keys;
    CollectedNext(printed, keys, i, acc);
    CanonicalCorrect(d, v.members[key]);
    TextPiecesValue(key);
    var now := acc[key := printed[key]];
    if i + 1 == |keys| {
      assert keys[..i + 1] == keys;
      SameMap(now, printed);
    } else {
      CanonicalMembersCollect(d, v, keys, i + 1, now);
    }
  }

  lemma SameMap<K, V>(a: map<K, V>, b: map<K, V>)
    requires a.Keys == b.Keys && forall k :: k in a ==> a[k] == b[k]
    ensures a == b
  {
  }

  lemma {:induction false} CanonicalMembersYield(d: Doubles, v: Json, keys: seq<Text>, i: nat)
    requires ValidDoubles(d) && v.Obj? && i < |keys| && keys == Sorted(v.members.Keys) && Holds(v)
    ensures (if i > 0 then [COMMA] else []) + YieldMembers(CanonicalMembers(d, v, keys, i)) == SerializeMembers(d, v, keys, i)
    decreases v, |keys| - i, 0
  {
    var key := keys[i];
    assert key in Elements(keys);
    CanonicalCorrect(d, v.members[key]);
    CanonicalPairYield(d, v, keys, i);
    var ms := CanonicalMembers(d, v, keys, i);
    var lead, text := if i > 0 then [COMMA] else [], Serialize(d, v.members[key]);
    if i + 1 == |keys| {
      assert YieldMembers(ms) == YieldPair(ms.pair) + [];
      Regroup(lead, StringText(key), text, []);
    } else {
      CanonicalMembersYield(d, v, keys, i + 1);
      Regroup(lead, StringText(key), text, SerializeMembers(d, v, keys, i + 1));
    }
  }

  lemma CanonicalPairYield(d: Doubles, v: Json, keys: seq<Text>, i: nat)
    requires v.Obj? && i < |keys| && Elements(keys) == v.members.Keys
    requires keys[i] in v.members && Yield(Canonical(d, v.members[keys[i]])) == Serialize(d, v.members[keys[i]])
    ensures YieldPair(CanonicalMembers(d, v, keys, i).pair)
         == StringText(keys[i]) + [COLON] + Serialize(d, v.members[keys[i]])
  {
    var p := CanonicalMembers(d, v, keys, i).pair;
    var text := Serialize(d, v.members[keys[i]]);
    assert YieldSlot(p.slot) == [] + text + [];
    assert YieldSlot(p.slot) == text;
    assert YieldPair(p) == [] + StringText(keys[i]) + [] + [COLON] + text;
  }

  lemma Regroup(lead: Text, key: Text, value: Text, tail: Text)
    ensures lead + (key + [COLON] + value + tail) == lead + key + [COLON] + value + tail
  {
  }

  lemma NewKey(keys: seq<Text>, i: nat)
    requires Ascending(keys) && i < |keys|
    ensures keys[i] !in keys[..i] && Elements(keys[..i + 1]) == Elements(keys[..i]) + {keys[i]}
  {
    assert keys[..i + 1] == keys[..i] + [keys[i]];
    if keys[i] in keys[..i] {
      var j :| 0 <= j < i && keys[j] == keys[i];
      BeforeIrreflexive(keys[i]);
      assert false;
    }
    forall x | x in Elements(keys[..i]) + {keys[i]} ensures x in keys[..i] + [keys[i]] {
    }
  }

  /** Reading a serialized document stops exactly at whatever follows it, unless one of its numbers is refused. */
  lemma ReadsBack(d: Doubles, v: Json, rest: Text)
    requires ValidDoubles(d) && Holds(v) && (v.Int? || v.Num? ==> EndsNumber(rest))
    ensures ReadValue(Serialize(d, v) + rest) == if Everywhere(InRange(d), v) then Done(Printed(d, v), rest) else Fail
  {
    CanonicalCorrect(d, v);
    BareDerivationRead(Canonical(d, v), rest);
  }

  /** What the parser makes of a serialized document: the same document, but for numbers, which come as written. */
  lemma ParseSerialized(d: Doubles, v: Json)
    requires ValidDoubles(d) && Holds(v)
    ensures Parse(Serialize(d, v)) == if Everywhere(InRange(d), v) then Some(Printed(d, v)) else None
  {
    ReadsBack(d, v, []);
    assert Serialize(d, v) + [] == Serialize(d, v);
  }

  lemma {:induction false} PrintedSame(d: Doubles, v: Json)
    ensures Everywhere(InRange(d), v) && Same(d, v, Printed(d, v)) <==> Everywhere(Printable(d), v)
    decreases v
  {
    match v {
      case Arr(items) => forall i | 0 <= i < |items| { PrintedSame(d, items[i]); }
      case Obj(m) => forall k | k in m { PrintedSame(d, m[k]); }
      case _ =>
    }
  }

  lemma {:induction false} PrintedWithoutNumbers(d: Doubles, v: Json)
    requires Everywhere(NoNumber(), v)
    ensures Everywhere(InRange(d), v) && Printed(d, v) == v
    decreases v
  {
    match v {
      case Arr(items) =>
        forall i | 0 <= i < |items| { PrintedWithoutNumbers(d, items[i]); }
        assert Printed(d, v).items == items;
      case Obj(m) =>
        forall k | k in m { PrintedWithoutNumbers(d, m[k]); }
        SameMap(Printed(d, v).members, m);
      case _ =>
    }
  }

  /**
   * A document survives serializing and parsing exactly when every number in it is written as a literal of the same
   * double. One without fractional numbers comes back identical, on every platform.
   */
  lemma RoundTrip(d: Doubles, v: Json)
    requires ValidDoubles(d) && Holds(v)
    ensures var back := Parse(Serialize(d, v));
      (back.Some? && Same(d, v, back.value) <==> Everywhere(Printable(d), v))
      && (Everywhere(NoNumber(), v) ==> back == Some(v))
  {
    ParseSerialized(d, v);
    PrintedSame(d, v);
    if Everywhere(NoNumber(), v) { PrintedWithoutNumbers(d, v); }
  }

  lemma {:induction false} PowerGrows(base: int, m: nat, n: nat)
    requires base >= 1 && m <= n
    ensures 1 <= Power(base, m) <= Power(base, n)
    decreases n
  {
    if n > 0 { PowerGrows(base, if m < n then m else m - 1, n - 1); }
  }

  /** `1e-20`, a positive double. */
  const SMALL: Literal := Literal(false, [0x31], None, Some(Exponent(0x65, [MINUS], [0x32, 0x30])))

  lemma {:induction false} TenBelowSixteen(k: nat)
    ensures Power(10, k) <= Power(2, 4 * k)
  {
    if k == 0 {
      assert 4 * k == 0 && Power(10, 0) == Power(2, 0) == 1;
    } else {
      TenBelowSixteen(k - 1);
      var n := 4 * (k - 1);
      assert 4 * k == n + 4;
      assert Power(2, n + 2) == 2 * Power(2, n + 1) == 4 * Power(2, n);
      assert Power(2, n + 4) == 2 * Power(2, n + 3) == 4 * Power(2, n + 2);
      PowerGrows(10, 0, k - 1);
      assert Power(10, k) == 10 * Power(10, k - 1);
    }
  }

  /** The literals that are at most one do not overflow. */
  lemma BoundIsLarge(tens: int)
    requires tens >= 1
    ensures (Power(2, 54) - 1) * Power(2, 970) * tens > 1
  {
    PowerGrows(2, 1, 54);
    PowerGrows(2, 1, 970);
    assert Power(2, 1) == 2;
    AtLeast(Power(2, 54) - 1, 1, Power(2, 970), 2);
    AtLeast((Power(2, 54) - 1) * Power(2, 970), 2, tens, 1);
  }

  lemma AtLeast(x: int, a: nat, y: int, b: nat)
    requires x >= a && y >= b
    ensures x * y >= a * b
  {
  }

  lemma SmallMantissa()
    ensures DigitsValue([0x32, 0x30]) == 20 && DigitsValue([0x31] + []) == 1
  {
    assert [0x32, 0x30][..1] == [0x32] && [0x32][..0] == [];
    assert DigitsValue([0x32]) == 2;
    assert [0x31] + [] == [0x31] && [0x31][..0] == [];
  }

  lemma SmallIsPositive()
    ensures WellFormedLiteral(SMALL) && !IsInteger(SMALL) && !Overflows(SMALL) && RoundsPositive(SMALL) && Tiny(SMALL)
  {
    SmallMantissa();
    TenBelowSixteen(20);
    PowerGrows(2, 80, 1074);
    PowerGrows(10, 18, 20);
    BoundIsLarge(Power(10, 20));
    assert Power(2, 1075) == 2 * Power(2, 1074);
  }

  /** The loss is real: `1e-20` is written as `0.0`, and what is read is no longer positive. */
  lemma SmallIsLost(d: Doubles)
    requires ValidDoubles(d)
    ensures Holds(Num(SMALL)) && Parse(Serialize(d, Num(SMALL))) == Some(Num(ZERO)) && !Same(d, Num(SMALL), Num(ZERO))
  {
    SmallIsPositive();
    ZeroIsNotPositive(d);
    ParseSerialized(d, Num(SMALL));
    assert ReadsWithSign(d, SMALL) && d.Rewritten(SMALL) == ZERO;
  }

  lemma ZeroIsNotPositive(d: Doubles)
    requires ValidDoubles(d)
    ensures WellFormedLiteral(ZERO) && !Overflows(ZERO) && !RoundsPositive(ZERO) && !(0 < d.nearest(ZERO) < SIGN_BIT)
  {
    ZeroMantissa();
    PowerGrows(10, 0, 1);
    BoundIsLarge(Power(10, 1));
    assert ReadsWithSign(d, ZERO);
  }

  lemma ZeroMantissa()
    ensures DigitsValue([0x30] + [0x30]) == 0
  {
    assert ([0x30] + [0x30])[..1] == [0x30] && [0x30][..0] == [];
    assert DigitsValue([0x30]) == 0;
  }

  lemma TwoMantissa()
    ensures DigitsValue([0x32] + [0x30]) == 20
  {
    assert ([0x32] + [0x30])[..1] == [0x32] && [0x32][..0] == [];
    assert DigitsValue([0x32]) == 2;
  }

  lemma TwoIsPositive()
    ensures WellFormedLiteral(TWO) && !IsInteger(TWO) && !Overflows(TWO) && RoundsPositive(TWO) && !Tiny(TWO)
  {
    TwoMantissa();
    assert Power(10, 1) == 10 && Power(10, 0) == 1;
    PowerGrows(2, 0, 1075);
    PowerGrows(10, 0, 18);
    TwoBelowBound();
  }

  lemma TwoBelowBound()
    ensures 20 < (Power(2, 54) - 1) * Power(2, 970) * Power(10, 1)
  {
    PowerGrows(2, 2, 54);
    PowerGrows(2, 0, 970);
    assert Power(2, 2) == 4 && Power(10, 1) == 10;
    AtLeast(Power(2, 54) - 1, 3, Power(2, 970), 1);
    AtLeast((Power(2, 54) - 1) * Power(2, 970), 3, Power(10, 1), 10);
  }

  /** A platform that tells three doubles apart. */
  function NearestOfThree(l: Literal): Double { if !RoundsPositive(l) then 0 else if Tiny(l) then 1 else 2 }
  function ShownOfThree(x: Double): Literal {
    if x == 2 then TWO else ZERO
  }

  /** What is asked of the platform can be met. */
  lemma SomePlatform() returns (d: Doubles)
    ensures ValidDoubles(d)
  {
    d := Doubles(NearestOfThree, ShownOfThree);
    TwoIsPositive();
    forall l ensures ReadsWithSign(d, l) {
      assert d.nearest(l) == NearestOfThree(l) && 0 <= NearestOfThree(l) <= 2;
      assert Finite(NearestOfThree(l));
    }
    forall x: Double ensures IsFixedPoint(d.shown(x)) {
      assert d.shown(x) == ShownOfThree(x);
    }
    forall l | WellFormedLiteral(l) && Tiny(l) ensures d.Rewritten(l) == ZERO {
      assert d.nearest(l) == NearestOfThree(l) != 2;
    }
  }

  lemma {:induction false} MeaningHolds(t: Tree)
    requires WellFormed(t) && Acceptable(t)
    ensures Holds(Meaning(t))
    decreases t
  {
    match t {
      case ArrayTree(items) => ValuesHold(items);
      case ObjectTree(members) => CollectHolds(members, {}, map[]);
      case _ =>
    }
  }

  lemma {:induction false} ValuesHold(items: Items)
    requires WellFormedItems(items) && AcceptableItems(items)
    ensures forall i :: 0 <= i < |Values(items)| ==> Holds(Values(items)[i])
    decreases items
  {
    MeaningHolds(items.slot.value);
    if items.NextItem? { ValuesHold(items.rest); }
  }

  lemma {:induction false} CollectHolds(members: Members, seen: set<Text>, acc: map<Text, Json>)
    requires WellFormedMembers(members) && AcceptableMembers(members, seen)
    requires forall k :: k in acc ==> Holds(acc[k])
    ensures forall k :: k in Collect(members, acc) ==> Holds(Collect(members, acc)[k])
    decreases members
  {
    MeaningHolds(members.pair.slot.value);
    if members.NextMember? {
      var key := PiecesValue(members.pair.key);
      CollectHolds(members.rest, seen + {key}, acc[key := Meaning(members.pair.slot.value)]);
    }
  }

  /**
   * A parsed text can be serialized, and gives the same document again exactly when its numbers are written
   * faithfully.
   */
  lemma ParsedHolds(d: Doubles, text: Text)
    requires ValidDoubles(d) && Parse(text).Some?
    ensures var v := Parse(text).value;
      var back := Parse(Serialize(d, v));
      Holds(v) && (back.Some? && Same(d, v, back.value) <==> Everywhere(Printable(d), v))
  {
    ParsedIsHeld(text);
    RoundTrip(d, Parse(text).value);
  }

  lemma ParsedIsHeld(text: Text)
    requires Parse(text).Some?
    ensures Holds(Parse(text).value)
  {
    ParseExact(text, Parse(text).value);
    var pre, t, post :| IsDerivation(text, pre, t, post) && Meaning(t) == Parse(text).value;
    MeaningHolds(t);
  }
}
