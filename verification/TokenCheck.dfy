/** The token comparison of the bridge server. */
module TokenCheck {
  import opened Texts
  import opened Framing

  /** Exclusive and inclusive or of non-negative integers, bit by bit. */
  function Xor(a: nat, b: nat): nat {
    if a == 0 && b == 0 then 0 else 2 * Xor(a / 2, b / 2) + (if a % 2 == b % 2 then 0 else 1)
  }
  function Or(a: nat, b: nat): nat {
    if a == 0 && b == 0 then 0 else 2 * Or(a / 2, b / 2) + (if a % 2 == 0 && b % 2 == 0 then 0 else 1)
  }

  lemma {:induction false} XorZero(a: nat, b: nat)
    ensures Xor(a, b) == 0 <==> a == b
  {
    if a != 0 || b != 0 { XorZero(a / 2, b / 2); }
  }

  lemma {:induction false} OrZero(a: nat, b: nat)
    ensures Or(a, b) == 0 <==> a == 0 && b == 0
  {
    if a != 0 || b != 0 { OrZero(a / 2, b / 2); }
  }

  /** Folding one more comparison into the difference. */
  function Mix(difference: nat, a: nat, b: nat): (d: nat)
    ensures d == 0 <==> difference == 0 && a == b
  {
    XorZero(a, b);
    OrZero(difference, Xor(a, b));
    Or(difference, Xor(a, b))
  }

  function Wrap(index: nat, length: nat): (i: nat)
    requires length > 0
    ensures i < length && (index < length ==> i == index)
  {
    index % length
  }

  lemma OneMore(left: Bytes, right: Bytes, index: nat)
    requires |left| == |right| && index < |left|
    ensures left[..index + 1] == right[..index + 1] <==> left[..index] == right[..index] && left[index] == right[index]
  {
    assert left[..index + 1] == left[..index] + [left[index]];
    assert right[..index + 1] == right[..index] + [right[index]];
  }

  /**
   * `FixedTimeEquals`: looks at every position of the longer input, whatever it finds. `None` is the division by zero
   * when exactly one input is empty.
   */
  method FixedTimeEquals(left: Bytes, right: Bytes) returns (equal: Option<bool>)
    ensures equal == if (left == []) != (right == []) then None else Some(left == right)
  {
    var difference := Mix(0, |left|, |right|);
    var count := if |left| < |right| then |right| else |left|;
    for index := 0 to count
      invariant |left| != |right| ==> difference != 0
      invariant |left| == |right| ==> (difference == 0 <==> left[..index] == right[..index])
      invariant index > 0 ==> left != [] && right != []
    {
      if left == [] || right == [] { return None; }
      difference := Mix(difference, left[Wrap(index, |left|)], right[Wrap(index, |right|)]);
      if |left| == |right| { OneMore(left, right, index); }
    }
    assert left[..|left|] == left && right[..|right|] == right;
    return Some(difference == 0);
  }
}
