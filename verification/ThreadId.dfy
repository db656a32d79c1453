/** How goethe_factory.go keeps a thread's id on its call stack: one frame for each hexadecimal digit,
    pushed most significant digit first, and read back from a stack trace innermost frame first. */
module ThreadId {
  import opened Basics

  /** A frame of one of the functions xXTidFrame0 to xXTidFrameF, or any other frame. */
  datatype Frame = TidFrame(digit: char) | Other

  const LOWER := "0123456789abcdef"
  const UPPER := "0123456789ABCDEF"

  /** convertToNibbles: the digits of a non-negative id as "%x" prints them. */
  function Nibbles(tid: nat): (r: seq<char>)
    ensures r != [] && forall i :: 0 <= i < |r| ==> r[i] in LOWER
  {
    if tid < 16 then [LOWER[tid]] else Nibbles(tid / 16) + [LOWER[tid % 16]]
  }

  /** The switch of internalInvoke, which panics on anything that is not a digit. */
  function FrameFor(nibble: char): Option<Frame> {
    if '0' <= nibble <= '9' then Some(TidFrame(nibble))
    else if nibble == 'a' then Some(TidFrame('A'))
    else if nibble == 'b' then Some(TidFrame('B'))
    else if nibble == 'c' then Some(TidFrame('C'))
    else if nibble == 'd' then Some(TidFrame('D'))
    else if nibble == 'e' then Some(TidFrame('E'))
    else if nibble == 'f' then Some(TidFrame('F'))
    else None
  }

  /** internalInvoke calling itself through the frame functions: the stack, innermost frame first, on which the
      user's function is finally called. */
  function Invoke(nibbles: seq<char>, index: nat, stack: seq<Frame>): Option<seq<Frame>>
    decreases |nibbles| - index
  {
    if index >= |nibbles| then Some([Other] + stack)
    else
      var frame := FrameFor(nibbles[index]);
      if frame.None? then None else Invoke(nibbles, index + 1, [frame.value, Other] + stack)
  }

  /** The digits on a stack, outermost first. */
  function Digits(stack: seq<Frame>): seq<char> {
    if stack == [] then [] else
    Digits(stack[1..]) + (if stack[0].TidFrame? then [stack[0].digit] else [])
  }

  function DigitValue(c: char): nat {
    if '0' <= c <= '9' then c as nat - '0' as nat
    else if 'A' <= c <= 'F' then c as nat - 'A' as nat + 10
    else 0
  }

  /** What Sscanf with "%X" makes of a string of digits. */
  function ParseHex(s: seq<char>): nat {
    if s == [] then 0 else 16 * ParseHex(s[..|s| - 1]) + DigitValue(s[|s| - 1])
  }

  /** GetThreadID: the loop over the tokens of the stack trace. */
  method GetThreadID(stack: seq<Frame>) returns (tid: int)
    ensures tid == (if Digits(stack) == [] then -1 else ParseHex(Digits(stack)))
  {
    var tidHexString := [];
    for i := 0 to |stack|
      invariant tidHexString == Digits(stack[..i])
    {
      DigitsSnoc(stack[..i], stack[i]);
      assert stack[..i + 1] == stack[..i] + [stack[i]];
      if stack[i].TidFrame? { tidHexString := [stack[i].digit] + tidHexString; }
    }
    assert stack[..|stack|] == stack;
    if tidHexString == [] { return -1; }
    tid := ParseHex(tidHexString);
  }

  lemma {:induction false} DigitsSnoc(stack: seq<Frame>, f: Frame)
    ensures Digits(stack + [f]) == (if f.TidFrame? then [f.digit] else []) + Digits(stack)
  {
    if stack == [] {
      assert stack + [f] == [f];
    } else {
      assert (stack + [f])[1..] == stack[1..] + [f];
      DigitsSnoc(stack[1..], f);
    }
  }

  lemma {:induction false} DigitsConcat(a: seq<Frame>, b: seq<Frame>)
    ensures Digits(a + b) == Digits(b) + Digits(a)
  {
    if a == [] {
      assert a + b == b;
    } else {
      assert (a + b)[1..] == a[1..] + b;
      DigitsConcat(a[1..], b);
    }
  }

  lemma {:induction false} NoDigits(stack: seq<Frame>)
    requires forall i :: 0 <= i < |stack| ==> stack[i].Other?
    ensures Digits(stack) == []
  {
    if stack != [] { NoDigits(stack[1..]); }
  }

  function Upper(nibbles: seq<char>): (r: seq<char>)
    requires forall i :: 0 <= i < |nibbles| ==> nibbles[i] in LOWER
    ensures |r| == |nibbles|
  {
    seq(|nibbles|, i requires 0 <= i < |nibbles| => UPPER[ValueOf(nibbles[i])])
  }

  /** The place of a digit among the digits. */
  function ValueOf(c: char): (v: nat)
    requires c in LOWER
    ensures v < 16 && LOWER[v] == c
  {
    if '0' <= c <= '9' then c as nat - '0' as nat else c as nat - 'a' as nat + 10
  }

  lemma {:induction false} FrameOfDigit(c: char)
    requires c in LOWER
    ensures FrameFor(c) == Some(TidFrame(UPPER[ValueOf(c)])) && DigitValue(UPPER[ValueOf(c)]) == ValueOf(c)
  {
    var v := ValueOf(c);
    assert c == LOWER[v];
  }

  lemma {:induction false} UpperSuffix(nibbles: seq<char>, index: nat, digit: char)
    requires index < |nibbles| && forall i :: 0 <= i < |nibbles| ==> nibbles[i] in LOWER
    requires digit == UPPER[ValueOf(nibbles[index])]
    ensures Upper(nibbles)[index..] == [digit] + Upper(nibbles)[index + 1..]
  {
    hide ValueOf;
  }

  lemma {:induction false} PushDigit(frame: Frame, stack: seq<Frame>)
    requires frame.TidFrame?
    ensures Digits([frame, Other] + stack) == Digits(stack) + [frame.digit]
    ensures Digits([Other] + stack) == Digits(stack)
  {
    assert ([frame, Other] + stack)[1..] == [Other] + stack && ([Other] + stack)[1..] == stack;
    assert Digits(stack) + [] == Digits(stack);
  }

  /** Invoking pushes exactly the digits that are left, and never panics on digits. */
  lemma {:induction false} InvokePushes(nibbles: seq<char>, index: nat, stack: seq<Frame>)
    requires index <= |nibbles| && forall i :: 0 <= i < |nibbles| ==> nibbles[i] in LOWER
    ensures Invoke(nibbles, index, stack).Some?
    ensures Digits(Invoke(nibbles, index, stack).value) == Digits(stack) + Upper(nibbles)[index..]
    decreases |nibbles| - index
  {
    hide Upper, FrameFor, Digits, ValueOf;
    if index == |nibbles| {
      PushDigit(TidFrame('0'), stack);
      assert Upper(nibbles)[index..] == [];
    } else {
      FrameOfDigit(nibbles[index]);
      var f := FrameFor(nibbles[index]).value;
      PushDigit(f, stack);
      InvokePushes(nibbles, index + 1, [f, Other] + stack);
      UpperSuffix(nibbles, index, f.digit);
      assert Digits(stack) + [f.digit] + Upper(nibbles)[index + 1..] ==
        Digits(stack) + ([f.digit] + Upper(nibbles)[index + 1..]);
    }
  }

  lemma {:induction false} DigitSurvives(v: nat)
    requires v < 16
    ensures DigitValue(UPPER[ValueOf(LOWER[v])]) == v
  {
    FrameOfDigit(LOWER[v]);
    DistinctDigits(ValueOf(LOWER[v]), v);
  }

  /** One more digit at the end. */
  lemma {:induction false} ParseOneMore(nibbles: seq<char>, v: nat)
    requires v < 16 && forall i :: 0 <= i < |nibbles| ==> nibbles[i] in LOWER
    ensures forall i :: 0 <= i < |nibbles + [LOWER[v]]| ==> (nibbles + [LOWER[v]])[i] in LOWER
    ensures ParseHex(Upper(nibbles + [LOWER[v]])) == 16 * ParseHex(Upper(nibbles)) + v
  {
    hide DigitValue, ValueOf, Upper, ParseHex;
    DigitSurvives(v);
    UpperSnoc(nibbles, v);
    ParseSnoc(Upper(nibbles), UPPER[ValueOf(LOWER[v])]);
  }

  lemma {:induction false} ParseNibbles(tid: nat)
    ensures ParseHex(Upper(Nibbles(tid))) == tid
  {
    if tid >= 16 {
      hide Upper, ParseHex, ValueOf;
      ParseNibbles(tid / 16);
      ParseOneMore(Nibbles(tid / 16), tid % 16);
    } else {
      assert ParseHex(Upper([])) == 0;
      ParseOneMore([], tid);
      hide Upper, ParseHex, ValueOf;
      var last := [LOWER[tid]];
      assert [] + last == last;
    }
  }

  lemma {:induction false} UpperSnoc(nibbles: seq<char>, v: nat)
    requires v < 16 && forall i :: 0 <= i < |nibbles| ==> nibbles[i] in LOWER
    ensures forall i :: 0 <= i < |nibbles + [LOWER[v]]| ==> (nibbles + [LOWER[v]])[i] in LOWER
    ensures Upper(nibbles + [LOWER[v]]) == Upper(nibbles) + [UPPER[ValueOf(LOWER[v])]]
  {
    hide ValueOf;
  }

  lemma {:induction false} ParseSnoc(s: seq<char>, c: char)
    ensures ParseHex(s + [c]) == 16 * ParseHex(s) + DigitValue(c) && ParseHex([]) == 0
  {
    assert (s + [c])[..|s|] == s;
  }

  lemma {:induction false} DistinctDigits(a: nat, b: nat)
    requires a < 16 && b < 16 && LOWER[a] == LOWER[b]
    ensures a == b
  {
  }

  /** Every id survives the trip: a thread started with it, whatever calls its function makes and whatever
      frames lie below, reads it back. */
  lemma {:induction false} RoundTrip(tid: nat, below: seq<Frame>, above: seq<Frame>)
    requires forall i :: 0 <= i < |below| ==> below[i].Other?
    requires forall i :: 0 <= i < |above| ==> above[i].Other?
    ensures Invoke(Nibbles(tid), 0, below).Some?
    ensures var digits := Digits(above + Invoke(Nibbles(tid), 0, below).value);
      digits != [] && ParseHex(digits) == tid
  {
    var nibbles := Nibbles(tid);
    NoDigits(below);
    NoDigits(above);
    InvokePushes(nibbles, 0, below);
    DigitsConcat(above, Invoke(nibbles, 0, below).value);
    assert [] + Upper(nibbles)[0..] + [] == Upper(nibbles);
    ParseNibbles(tid);
  }
}
