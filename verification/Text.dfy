/** Strings as Rust compares and formats them: code point order, which is the
    byte order of the UTF-8 form, and zero-padded decimals. */
module Text {

  predicate LexLess(a: string, b: string) {
    if b == "" then false
    else if a == "" then true
    else a[0] < b[0] || (a[0] == b[0] && LexLess(a[1..], b[1..]))
  }

  lemma {:induction false} LexIrreflexive(a: string)
    ensures !LexLess(a, a)
  {
    if a != "" {
      LexIrreflexive(a[1..]);
    }
  }

  lemma {:induction false} LexTransitive(a: string, b: string, c: string)
    requires LexLess(a, b) && LexLess(b, c)
    ensures LexLess(a, c)
  {
    if a != "" && a[0] == b[0] && b[0] == c[0] {
      LexTransitive(a[1..], b[1..], c[1..]);
    }
  }

  lemma {:induction false} LexTotal(a: string, b: string)
    ensures LexLess(a, b) || a == b || LexLess(b, a)
  {
    if a != "" && b != "" && a[0] == b[0] {
      LexTotal(a[1..], b[1..]);
      assert a == [a[0]] + a[1..] && b == [b[0]] + b[1..];
    }
  }

  lemma {:induction false} LexCommonPrefix(p: string, a: string, b: string)
    ensures LexLess(p + a, p + b) == LexLess(a, b)
  {
    if p == "" {
      assert p + a == a && p + b == b;
    } else {
      assert (p + a)[1..] == p[1..] + a && (p + b)[1..] == p[1..] + b;
      LexCommonPrefix(p[1..], a, b);
    }
  }

  // ----- decimals -----

  function Digit(n: nat): char
    requires n < 10
  {
    '0' + n as char
  }

  function Decimal(n: nat): (s: string)
    ensures |s| > 0
  {
    if n < 10 then [Digit(n)] else Decimal(n / 10) + [Digit(n % 10)]
  }

  function Zeros(n: nat): (s: string)
    ensures |s| == n
  {
    seq(n, i => '0')
  }

  /** `{n:0w}` for an unsigned value: at least w characters. */
  function Pad(n: nat, w: nat): string {
    var s := Decimal(n);
    if |s| < w then Zeros(w - |s|) + s else s
  }

  /** `{n:0w}` for a signed value: the sign counts towards the width. */
  function PadInt(n: int, w: nat): string {
    if n >= 0 then Pad(n, w) else "-" + Pad(-n, if w > 0 then w - 1 else 0)
  }

  function Pow10(w: nat): (p: nat)
    ensures p > 0
  {
    if w == 0 then 1 else 10 * Pow10(w - 1)
  }

  /** The last w decimal digits of n, most significant first. */
  function LastDigits(n: nat, w: nat): (s: string)
    ensures |s| == w
  {
    if w == 0 then "" else LastDigits(n / 10, w - 1) + [Digit(n % 10)]
  }

  lemma {:induction false} LastDigitsOfZero(w: nat)
    ensures LastDigits(0, w) == Zeros(w)
  {
    if w > 0 {
      LastDigitsOfZero(w - 1);
    }
  }

  lemma {:induction false} DecimalFits(n: nat, w: nat)
    requires w > 0 && n < Pow10(w)
    ensures |Decimal(n)| <= w && LastDigits(n, w) == Zeros(w - |Decimal(n)|) + Decimal(n)
  {
    if n < 10 {
      LastDigitsOfZero(w - 1);
    } else {
      assert n < 10 * Pow10(w - 1) && Pow10(0) == 1;
      DecimalFits(n / 10, w - 1);
      assert LastDigits(n, w) == Zeros(w - |Decimal(n)|) + (Decimal(n / 10) + [Digit(n % 10)]);
    }
  }

  /** A value that fits is padded to exactly its last w digits. */
  lemma PadFits(n: nat, w: nat)
    requires w > 0 && n < Pow10(w)
    ensures Pad(n, w) == LastDigits(n, w)
  {
    DecimalFits(n, w);
    if |Decimal(n)| == w {
      assert Zeros(0) + Decimal(n) == Decimal(n);
    }
  }

  lemma {:induction false} LastDigitsOrder(a: nat, b: nat, w: nat, u: string, v: string)
    requires a < b < Pow10(w)
    ensures LexLess(LastDigits(a, w) + u, LastDigits(b, w) + v)
  {
    var u', v' := [Digit(a % 10)] + u, [Digit(b % 10)] + v;
    assert LastDigits(a, w) + u == LastDigits(a / 10, w - 1) + u';
    assert LastDigits(b, w) + v == LastDigits(b / 10, w - 1) + v';
    if a / 10 < b / 10 {
      LastDigitsOrder(a / 10, b / 10, w - 1, u', v');
    } else {
      LexCommonPrefix(LastDigits(a / 10, w - 1), u', v');
    }
  }

  /** Fixed-width decimals compare first by value, then by what follows. */
  lemma PadOrder(a: nat, b: nat, w: nat, u: string, v: string)
    requires w > 0 && a < Pow10(w) && b < Pow10(w)
    requires a < b || (a == b && LexLess(u, v))
    ensures LexLess(Pad(a, w) + u, Pad(b, w) + v)
  {
    PadFits(a, w);
    PadFits(b, w);
    if a < b {
      LastDigitsOrder(a, b, w, u, v);
    } else {
      LexCommonPrefix(LastDigits(a, w), u, v);
    }
  }

  // ----- names -----

  predicate IsInfix(needle: string, s: string) {
    exists i | 0 <= i <= |s| :: needle <= s[i..]
  }

  /** A name that is safe as one component of a file path. */
  predicate ValidName(name: string) {
    name != "" && '/' !in name && '\\' !in name && !IsInfix("..", name) && '\0' !in name
  }
}
