/** The clock as the model sees it. A reading of `new Date()` is a natural number
    (milliseconds); `toISOString()` renders it as text and `new Date(text).getTime()`
    reads the text back. The model renders a reading as its decimal digits, which
    keeps the one property the pages rely on: reading back a rendered time gives
    the time. */
module Clock {

  predicate IsDigit(c: char) {
    '0' <= c <= '9'
  }

  function Digit(d: nat): (c: char)
    requires d < 10
    ensures IsDigit(c)
  {
    ('0' as int + d) as char
  }

  /** `new Date(t).toISOString()`. */
  function Stamp(t: nat): (s: string)
    ensures |s| > 0
    ensures forall i :: 0 <= i < |s| ==> IsDigit(s[i])
  {
    if t < 10 then [Digit(t)] else Stamp(t / 10) + [Digit(t % 10)]
  }

  /** The number written by a non-empty string of digits. */
  function DigitsValue(s: string): nat
    requires forall i :: 0 <= i < |s| ==> IsDigit(s[i])
  {
    if s == [] then 0
    else
      assert IsDigit(s[|s| - 1]);
      DigitsValue(s[..|s| - 1]) * 10 + (s[|s| - 1] as int - '0' as int)
  }

  /** `new Date(s).getTime()`; -1 stands for the `NaN` of a string that is not a time. */
  function TimeOf(s: string): (r: int)
    ensures r >= -1
    ensures r == -1 <==> s == [] || exists i :: 0 <= i < |s| && !IsDigit(s[i])
  {
    if s != [] && forall i :: 0 <= i < |s| ==> IsDigit(s[i]) then DigitsValue(s) else -1
  }

  /** Reading back a rendered time gives that time. */
  lemma {:induction false} TimeOfStamp(t: nat)
    ensures TimeOf(Stamp(t)) == t
  {
    var s := Stamp(t);
    if t >= 10 {
      TimeOfStamp(t / 10);
      assert s[..|s| - 1] == Stamp(t / 10);
    } else {
      assert s[..|s| - 1] == [];
      assert s[0] as int == '0' as int + t;
      assert DigitsValue(s) == DigitsValue([]) * 10 + (s[0] as int - '0' as int);
    }
  }

  /** Rendering is injective: two different times never share a stamp. */
  lemma StampInjective(t: nat, u: nat)
    requires Stamp(t) == Stamp(u)
    ensures t == u
  {
    TimeOfStamp(t);
    TimeOfStamp(u);
  }
}
