/** Hex quantities and hex data with 0x prefix (pkg/common/hexutil). Texts are strings of
    one-byte characters. */
module Hexutil {
  import opened Numbers
  import opened Wrappers

  datatype HexError =
    | EmptyString | Syntax | MissingPrefix | OddLength | EmptyNumber | LeadingZero
    | Uint64Range | Big256Range | WrongLength

  datatype Result<+T> = Ok(value: T) | Err(error: HexError)

  const TT64: int := 0x1_0000000000000000

  // ---------------------------------------------------------------------------------------
  // Digits

  /** The value of a hex digit of either case, or -1. */
  function DecodeNibble(c: char): (r: int)
    ensures -1 <= r < 16
  {
    if '0' <= c <= '9' then c as int - '0' as int
    else if 'A' <= c <= 'F' then c as int - 'A' as int + 10
    else if 'a' <= c <= 'f' then c as int - 'a' as int + 10
    else -1
  }

  predicate IsHex(s: string) {
    forall i :: 0 <= i < |s| ==> DecodeNibble(s[i]) >= 0
  }

  function HexValue(s: string): nat
    requires IsHex(s)
    decreases |s|
  {
    if s == "" then 0 else 16 * HexValue(s[..|s| - 1]) + DecodeNibble(s[|s| - 1])
  }

  lemma HexValueSnoc(s: string, c: char)
    requires IsHex(s) && DecodeNibble(c) >= 0
    ensures IsHex(s + [c]) && HexValue(s + [c]) == 16 * HexValue(s) + DecodeNibble(c)
  {
    var t := s + [c];
    assert t[..|t| - 1] == s;
  }

  function Digit(d: nat): (c: char)
    requires d < 16
    ensures DecodeNibble(c) == d && ToLower(c) == c
  {
    "0123456789abcdef"[d]
  }

  function ToLower(c: char): char {
    if 'A' <= c <= 'Z' then c - 'A' + 'a' else c
  }

  function Lower(s: string): (r: string)
    ensures |r| == |s| && forall i :: 0 <= i < |s| ==> r[i] == ToLower(s[i])
  {
    seq(|s|, i requires 0 <= i < |s| => ToLower(s[i]))
  }

  /** The shortest lower-case digits of n; what strconv and fmt print in base 16. */
  function Digits(n: nat): (s: string)
    ensures s != ""
  {
    if n < 16 then [Digit(n)] else Digits(n / 16) + [Digit(n % 16)]
  }

  /** A digit string without superfluous zeros. */
  predicate Canonical(s: string) {
    s != "" && IsHex(s) && (|s| > 1 ==> s[0] != '0')
  }

  lemma {:induction false} DigitsValue(n: nat)
    ensures Canonical(Digits(n)) && HexValue(Digits(n)) == n
    ensures n > 0 ==> Digits(n)[0] != '0'
  {
    if n >= 16 {
      DigitsValue(n / 16);
      assert Digits(n)[..|Digits(n)| - 1] == Digits(n / 16);
    }
  }

  lemma {:induction false} HexValueBound(s: string)
    requires IsHex(s)
    ensures HexValue(s) < Pow(16, |s|)
    ensures s != "" && s[0] != '0' ==> Pow(16, |s| - 1) <= HexValue(s)
    decreases |s|
  {
    if s != "" {
      HexValueBound(s[..|s| - 1]);
      if s[0] != '0' {
        assert DecodeNibble(s[0]) > 0;
      }
    }
  }

  /** Canonical digits are determined by their value: they are the digits that would be printed,
      up to case. */
  lemma {:induction false} CanonicalUnique(s: string)
    requires Canonical(s)
    ensures Lower(s) == Digits(HexValue(s))
    decreases |s|
  {
    var front, c := s[..|s| - 1], s[|s| - 1];
    assert s == front + [c];
    if front == "" {
      OneDigit(c);
    } else {
      CanonicalUnique(front);
      DigitAppended(front, c);
    }
  }

  lemma DigitAppended(s: string, c: char)
    requires IsHex(s) && s != "" && s[0] != '0' && Lower(s) == Digits(HexValue(s)) && DecodeNibble(c) >= 0
    ensures IsHex(s + [c]) && Lower(s + [c]) == Digits(HexValue(s + [c]))
  {
    LowerSnoc(s, c);
    HexValueSnoc(s, c);
    LowerDigit(c);
    NotZero(s);
    DigitsGrow(HexValue(s), DecodeNibble(c));
  }

  lemma OneDigit(c: char)
    requires DecodeNibble(c) >= 0
    ensures IsHex("" + [c]) && Lower("" + [c]) == Digits(HexValue("" + [c]))
  {
    LowerSnoc("", c);
    HexValueSnoc("", c);
    LowerDigit(c);
  }

  lemma LowerSnoc(s: string, c: char)
    ensures Lower(s + [c]) == Lower(s) + [ToLower(c)]
  {
  }

  lemma NotZero(s: string)
    requires IsHex(s) && s != "" && s[0] != '0'
    ensures HexValue(s) > 0
  {
    HexValueBound(s);
    PowPositive(16, |s| - 1);
  }

  lemma DigitsGrow(n: nat, d: nat)
    requires n > 0 && d < 16
    ensures Digits(16 * n + d) == Digits(n) + [Digit(d)]
  {
    assert (16 * n + d) / 16 == n && (16 * n + d) % 16 == d;
  }

  lemma LowerDigit(c: char)
    requires DecodeNibble(c) >= 0
    ensures ToLower(c) == Digit(DecodeNibble(c))
  {
  }

  lemma {:induction false} HexValueAppend(s: string, t: string)
    requires IsHex(s) && IsHex(t)
    ensures IsHex(s + t) && HexValue(s + t) == HexValue(s) * Pow(16, |t|) + HexValue(t)
    decreases |t|
  {
    if t == "" {
      assert s + t == s;
    } else {
      var k := |t| - 1;
      HexValueAppend(s, t[..k]);
      assert s + t == (s + t[..k]) + [t[k]];
      HexValueSnoc(s + t[..k], t[k]);
      Shifted(HexValue(s), Pow(16, k), HexValue(t[..k]), DecodeNibble(t[k]));
    }
  }

  lemma Shifted(v: int, m: int, r: int, d: int)
    ensures 16 * (v * m + r) + d == v * (16 * m) + (16 * r + d)
  {
    MulAssoc(v, 16, m);
    MulAssoc(16, v, m);
  }

  // ---------------------------------------------------------------------------------------
  // Prefixes

  predicate Has0xPrefix(s: string) {
    |s| >= 2 && s[0] == '0' && (s[1] == 'x' || s[1] == 'X')
  }

  function CheckNumber(input: string): Result<string> {
    if input == "" then Err(EmptyString)
    else if !Has0xPrefix(input) then Err(MissingPrefix)
    else if |input| == 2 then Err(EmptyNumber)
    else if |input| > 3 && input[2] == '0' then Err(LeadingZero)
    else Ok(input[2..])
  }

  /** Like CheckNumber, but the empty text is allowed. */
  function CheckNumberText(input: string): Result<string> {
    if input == "" then Ok("") else CheckNumber(input)
  }

  function CheckText(input: string, wantPrefix: bool): Result<string> {
    if input == "" then Ok("")
    else if !Has0xPrefix(input) && wantPrefix then Err(MissingPrefix)
    else
      var raw := if Has0xPrefix(input) then input[2..] else input;
      if |raw| % 2 != 0 then Err(OddLength) else Ok(raw)
  }

  // ---------------------------------------------------------------------------------------
  // Big quantities

  /** The value of a quantity of at most 256 bits. */
  function DecodedBig(input: string): Result<nat> {
    match CheckNumber(input)
    case Err(e) => Err(e)
    case Ok(raw) =>
      if |raw| > 64 then Err(Big256Range)
      else if !IsHex(raw) then Err(Syntax)
      else Ok(HexValue(raw))
  }

  function EncodeBig(x: int): string {
    if x < 0 then "-0x" + Digits(-x) else "0x" + Digits(x)
  }

  /** Words in base `w`, least significant first. */
  function FromWords(ws: seq<nat>, w: int): int
    decreases |ws|
  {
    if ws == [] then 0 else FromWords(ws[..|ws| - 1], w) + Pow(w, |ws| - 1) * ws[|ws| - 1]
  }

  /** Where the digits of the next word end. */
  lemma NextEnd(len: nat, wn: nat, i: nat, end: nat)
    requires wn > 0 && 0 <= i * wn && end == if i * wn <= len then len - i * wn else 0
    ensures 0 <= (i + 1) * wn
    ensures (if end < wn then 0 else end - wn) == if (i + 1) * wn <= len then len - (i + 1) * wn else 0
  {
    assert (i + 1) * wn == i * wn + wn;
  }

  /** One more digit still fits the word. */
  lemma DigitFits(s: string, wn: nat, nib: nat)
    requires IsHex(s) && |s| < wn && nib < 16
    ensures HexValue(s) * 16 + nib < Pow(16, wn)
  {
    HexValueBound(s);
    PowMonotone(16, |s|, wn - 1);
  }

  /** Adding a finished word of digits `a` on top of the value read so far, that of `b`. */
  lemma WordOnTop(a: string, b: string, wn: nat, i: nat, ws: seq<nat>, word: nat)
    requires |ws| == i && (a == "" || |b| == i * wn)
    requires IsHex(b) && FromWords(ws, Pow(16, wn)) == HexValue(b)
    requires IsHex(a) && word == HexValue(a)
    ensures IsHex(a + b) && FromWords(ws + [word], Pow(16, wn)) == HexValue(a + b)
  {
    HexValueAppend(a, b);
    FromWordsSnoc(ws, word, Pow(16, wn));
    if a != "" {
      WordWeight(wn, i, |b|, word);
    }
  }

  lemma NextWord(raw: string, wn: nat, i: nat, start: nat, end: nat, ws: seq<nat>, word: nat)
    requires start <= end <= |raw| && |ws| == i && end == if i * wn <= |raw| then |raw| - i * wn else 0
    requires IsHex(raw[end..]) && FromWords(ws, Pow(16, wn)) == HexValue(raw[end..])
    requires IsHex(raw[start..end]) && word == HexValue(raw[start..end])
    ensures IsHex(raw[start..]) && FromWords(ws + [word], Pow(16, wn)) == HexValue(raw[start..])
  {
    assert raw[start..] == raw[start..end] + raw[end..];
    assert i * wn > |raw| ==> raw[start..end] == "";
    WordOnTop(raw[start..end], raw[end..], wn, i, ws, word);
  }

  lemma FromWordsSnoc(ws: seq<nat>, word: nat, w: int)
    ensures FromWords(ws + [word], w) == FromWords(ws, w) + Pow(w, |ws|) * word
  {
    var vs := ws + [word];
    assert vs[..|vs| - 1] == ws;
  }

  lemma WordWeight(wn: nat, i: nat, digits: nat, word: nat)
    requires digits == i * wn
    ensures Pow(Pow(16, wn), i) * word == word * Pow(16, digits)
  {
    PowPow(16, wn, i);
    assert wn * i == digits;
  }

  /** The loop shared by DecodeBig and Big.UnmarshalText: `wn` digits fill one word, and word
      arithmetic is modulo 16^wn. The value does not depend on the word size. */
  method ParseWords(raw: string, wn: nat) returns (r: Option<nat>)
    requires wn > 0
    ensures r.Some? <==> IsHex(raw)
    ensures r.Some? ==> r.value == HexValue(raw)
  {
    var w := Pow(16, wn);
    var words := new nat[|raw| / wn + 1](_ => 0);
    var end := |raw|;
    var i := 0;
    assert raw[|raw|..] == "" && words[..0] == [];
    while i < words.Length
      invariant i <= words.Length && 0 <= i * wn
      invariant end == if i * wn <= |raw| then |raw| - i * wn else 0
      invariant IsHex(raw[end..]) && FromWords(words[..i], w) == HexValue(raw[end..])
      invariant forall k :: i <= k < words.Length ==> words[k] == 0
    {
      NextEnd(|raw|, wn, i, end);
      var ok;
      ok, end := ReadChunk(words, i, raw, end, wn);
      if !ok {
        return None;
      }
      i := i + 1;
    }
    AllWordsRead(|raw|, wn);
    assert raw[0..] == raw && words[..words.Length] == words[..];
    return Some(FromWords(words[..], w));
  }

  /** One round of the outer loop: the digits of word `i` are put on top of those read so far. */
  method ReadChunk(words: array<nat>, i: nat, raw: string, end: nat, wn: nat) returns (ok: bool, start: nat)
    requires wn > 0 && i < words.Length && words[i] == 0 && 0 <= i * wn
    requires end == if i * wn <= |raw| then |raw| - i * wn else 0
    requires IsHex(raw[end..]) && FromWords(words[..i], Pow(16, wn)) == HexValue(raw[end..])
    modifies words
    ensures start == if end < wn then 0 else end - wn
    ensures ok <==> IsHex(raw[start..end])
    ensures ok ==> IsHex(raw[start..]) && FromWords(words[..i + 1], Pow(16, wn)) == HexValue(raw[start..])
    ensures forall k :: i < k < words.Length ==> words[k] == old(words[k])
  {
    start := if end < wn then 0 else end - wn;
    ghost var before := words[..i];
    ok := FillWord(words, i, raw, start, end, wn);
    if ok {
      NextWord(raw, wn, i, start, end, before, words[i]);
      assert words[..i] == before && words[..i + 1] == before + [words[i]];
    }
  }

  /** The inner loop: the digits from `start` to `end` go into word `i`, which starts at zero. */
  method FillWord(words: array<nat>, i: nat, raw: string, start: nat, end: nat, wn: nat) returns (ok: bool)
    requires i < words.Length && words[i] == 0 && start <= end <= |raw| && end - start <= wn && wn > 0
    modifies words
    ensures ok <==> IsHex(raw[start..end])
    ensures ok ==> words[i] == HexValue(raw[start..end])
    ensures forall k :: 0 <= k < words.Length && k != i ==> words[k] == old(words[k])
  {
    var w := Pow(16, wn);
    PowPositive(16, wn);
    var ri := start;
    assert raw[start..start] == "";
    while ri < end
      invariant start <= ri <= end && IsHex(raw[start..ri]) && words[i] == HexValue(raw[start..ri])
      invariant forall k :: 0 <= k < words.Length && k != i ==> words[k] == old(words[k])
    {
      var nib := DecodeNibble(raw[ri]);
      if nib == -1 {
        assert raw[start..end][ri - start] == raw[ri];
        return false;
      }
      NextDigit(raw, start, ri, wn, words[i]);
      words[i] := words[i] * 16 % w;
      words[i] := (words[i] + nib) % w;
      ri := ri + 1;
    }
    return true;
  }

  /** Word arithmetic is exact while the value fits. */
  lemma NoWrap(v: nat, nib: nat, w: nat)
    requires v * 16 + nib < w
    ensures (v * 16 % w + nib) % w == v * 16 + nib
  {
    DivModUnique(v * 16, w, 0, v * 16);
    DivModUnique(v * 16 + nib, w, 0, v * 16 + nib);
  }

  /** Reading one more digit with arithmetic modulo 16^wn. */
  lemma NextDigit(raw: string, a: nat, i: nat, wn: nat, v: nat)
    requires a <= i < |raw| && i - a < wn && DecodeNibble(raw[i]) >= 0
    requires IsHex(raw[a..i]) && v == HexValue(raw[a..i])
    ensures Pow(16, wn) > 0
    ensures IsHex(raw[a..i + 1]) && HexValue(raw[a..i + 1]) == (v * 16 % Pow(16, wn) + DecodeNibble(raw[i])) % Pow(16, wn)
  {
    PowPositive(16, wn);
    DigitFits(raw[a..i], wn, DecodeNibble(raw[i]));
    assert raw[a..i + 1] == raw[a..i] + [raw[i]];
    HexValueSnoc(raw[a..i], raw[i]);
    NoWrap(v, DecodeNibble(raw[i]), Pow(16, wn));
  }

  lemma AllWordsRead(len: nat, wn: nat)
    requires wn > 0
    ensures (len / wn + 1) * wn > len
  {
    assert (len / wn + 1) * wn == len / wn * wn + wn;
  }

  /** The result is a quantity's value, for words of any size. */
  method DecodeBig(input: string, wn: nat) returns (r: Result<nat>)
    requires wn > 0
    ensures r == DecodedBig(input)
  {
    var checked := CheckNumber(input);
    if checked.Err? {
      return Err(checked.error);
    }
    if |checked.value| > 64 {
      return Err(Big256Range);
    }
    var v := ParseWords(checked.value, wn);
    return if v.None? then Err(Syntax) else Ok(v.value);
  }

  class Big {
    var val: nat

    constructor (v: nat)
      ensures val == v
    {
      val := v;
    }

    /** Agrees with DecodeBig on every non-empty text; the empty text reads as zero. An error
        leaves the number as it was. */
    method UnmarshalText(input: string, wn: nat) returns (err: Option<HexError>)
      requires wn > 0
      modifies this
      ensures input == "" ==> err == None && val == 0
      ensures input != "" && DecodedBig(input).Ok? ==> err == None && val == DecodedBig(input).value
      ensures input != "" && DecodedBig(input).Err? ==> err == Some(DecodedBig(input).error) && val == old(val)
    {
      var checked := CheckNumberText(input);
      if checked.Err? {
        return Some(checked.error);
      }
      if |checked.value| > 64 {
        return Some(Big256Range);
      }
      var v := ParseWords(checked.value, wn);
      if v.None? {
        return Some(Syntax);
      }
      val := v.value;
      return None;
    }
  }

  lemma Pow16Sizes()
    ensures Pow(16, 16) == TT64 && Pow(16, 64) == TT256
  {
    assert Pow(16, 2) == 256;
    PowAdd(16, 2, 2);
    PowAdd(16, 4, 4);
    PowAdd(16, 8, 8);
    PowAdd(16, 16, 16);
    PowAdd(16, 32, 32);
  }

  /** What is printed is read back exactly for the numbers of 0 to 256 bits. */
  lemma BigRoundTrip(x: int)
    ensures DecodedBig(EncodeBig(x)) == Ok(x) <==> 0 <= x < TT256
    ensures x < 0 ==> DecodedBig(EncodeBig(x)) == Err(MissingPrefix)
    ensures x >= TT256 ==> DecodedBig(EncodeBig(x)) == Err(Big256Range)
  {
    if x >= 0 {
      PrintedChecks(x);
      DigitsValue(x);
      DigitCount(x, 64);
      Pow16Sizes();
    }
  }

  lemma PrintedChecks(n: nat)
    ensures CheckNumber("0x" + Digits(n)) == Ok(Digits(n))
  {
    DigitsValue(n);
    assert ("0x" + Digits(n))[2..] == Digits(n);
  }

  /** n has at most k digits exactly when it is below 16^k. */
  lemma DigitCount(n: nat, k: nat)
    requires k > 0
    ensures |Digits(n)| <= k <==> n < Pow(16, k)
  {
    DigitsValue(n);
    HexValueBound(Digits(n));
    if |Digits(n)| <= k {
      PowMonotone(16, |Digits(n)|, k);
    } else if n > 0 {
      PowMonotone(16, k, |Digits(n)| - 1);
    }
  }

  /** Every accepted quantity is printed as itself in lower case. */
  lemma BigCanonical(s: string)
    requires DecodedBig(s).Ok?
    ensures EncodeBig(DecodedBig(s).value) == Lower(s)
  {
    CanonicalUnique(s[2..]);
    LowerTail(s);
  }

  lemma SameNibble(c: char)
    ensures DecodeNibble(ToLower(c)) == DecodeNibble(c)
    ensures ToLower(c) == '0' ==> c == '0'
    ensures ToLower(c) == 'x' ==> c == 'x' || c == 'X'
  {
  }

  /** A text that is hex digits in lower case is hex digits. */
  lemma LowerHex(s: string)
    requires IsHex(Lower(s))
    ensures IsHex(s) && HexValue(s) == HexValue(Lower(s))
  {
    forall i | 0 <= i < |s|
      ensures DecodeNibble(s[i]) >= 0
    {
      assert Lower(s)[i] == ToLower(s[i]);
      SameNibble(s[i]);
    }
    LowerHexValue(s);
  }

  lemma {:induction false} LowerHexValue(s: string)
    requires IsHex(s)
    ensures IsHex(Lower(s)) && HexValue(Lower(s)) == HexValue(s)
    decreases |s|
  {
    if s == "" {
      assert Lower(s) == "";
    } else {
      var front, c := s[..|s| - 1], s[|s| - 1];
      assert s == front + [c];
      LowerHexValue(front);
      LowerSnoc(front, c);
      SameNibble(c);
      HexValueSnoc(front, c);
      HexValueSnoc(Lower(front), ToLower(c));
    }
  }

  /** A text that in lower case begins with the prefix begins with it in either case. */
  lemma LowerPrefix(s: string, rest: string)
    requires Lower(s) == "0x" + rest
    ensures Has0xPrefix(s) && Lower(s[2..]) == rest
  {
    assert Lower(s)[0] == ToLower(s[0]) && Lower(s)[1] == ToLower(s[1]);
    SameNibble(s[0]);
    SameNibble(s[1]);
    LowerTail(s);
    assert Lower(s)[2..] == Lower(s[2..]) && ("0x" + rest)[2..] == rest;
  }

  lemma LowerCanonical(raw: string)
    requires Canonical(Lower(raw))
    ensures Canonical(raw) && HexValue(raw) == HexValue(Lower(raw))
  {
    LowerHex(raw);
    assert Lower(raw)[0] == ToLower(raw[0]);
  }

  /** A text that reads like a printed number in lower case has its prefix and its digits. */
  lemma LowerPrinted(s: string, n: nat)
    requires Lower(s) == "0x" + Digits(n)
    ensures Has0xPrefix(s) && Lower(s[2..]) == Digits(n) && Canonical(s[2..]) && HexValue(s[2..]) == n
    ensures CheckNumber(s) == Ok(s[2..])
  {
    LowerPrefix(s, Digits(n));
    DigitsValue(n);
    LowerCanonical(s[2..]);
    assert s[2..][0] == s[2];
  }

  /** Which texts are read, and as which number: a text is read as x exactly when x has at most 256
      bits and the text in lower case is what is printed for x. So digits and prefix of either case
      are read, and nothing else. */
  lemma BigReadsExactly(s: string, x: int)
    ensures DecodedBig(s) == Ok(x) <==> 0 <= x < TT256 && Lower(s) == EncodeBig(x)
  {
    if DecodedBig(s) == Ok(x) {
      BigCanonical(s);
      HexValueBound(s[2..]);
      PowMonotone(16, |s| - 2, 64);
      Pow16Sizes();
    }
    if 0 <= x < TT256 && Lower(s) == EncodeBig(x) {
      LowerPrinted(s, x);
      DigitCount(x, 64);
      Pow16Sizes();
      assert |Lower(s[2..])| == |s[2..]|;
    }
  }

  /** Why a text is refused: it is empty or has no prefix, or what follows the prefix is empty, has a
      leading zero, is too long, or holds something else than digits, in this order. */
  lemma BigRefusals(s: string, digits: string, x: char)
    requires x == 'x' || x == 'X'
    ensures DecodedBig("") == Err(EmptyString)
    ensures s != "" && !Has0xPrefix(s) ==> DecodedBig(s) == Err(MissingPrefix)
    ensures DecodedBig(['0', x]) == Err(EmptyNumber)
    ensures digits != "" ==> DecodedBig(['0', x] + "0" + digits) == Err(LeadingZero)
    ensures digits != "" && digits[0] != '0' && |digits| > 64 ==> DecodedBig(['0', x] + digits) == Err(Big256Range)
    ensures digits != "" && digits[0] != '0' && |digits| <= 64 && !IsHex(digits) ==> DecodedBig(['0', x] + digits) == Err(Syntax)
  {
    assert (['0', x] + digits)[2..] == digits;
  }

  /** Capital digits and a capital prefix are read. */
  lemma CapitalsAreRead()
    ensures DecodedBig("0XFF") == Ok(255)
  {
    HexValueSnoc("", 'F');
    HexValueSnoc("F", 'F');
    assert "0XFF"[2..] == "" + ['F'] + ['F'];
  }

  // ---------------------------------------------------------------------------------------
  // 64-bit quantities

  /** strconv.ParseUint in base 16, having read `n`: it stops at the first bad digit or at the
      first digit that takes the value past 64 bits. */
  function ParseUint(raw: string, n: nat): Result<nat> {
    if raw == "" then Ok(n)
    else if DecodeNibble(raw[0]) == -1 then Err(Syntax)
    else if n >= TT64 / 16 then Err(Uint64Range)
    else ParseUint(raw[1..], 16 * n + DecodeNibble(raw[0]))
  }

  function DecodeUint64(input: string): Result<nat> {
    match CheckNumber(input)
    case Err(e) => Err(e)
    case Ok(raw) => ParseUint(raw, 0)
  }

  function EncodeUint64(u: nat): string {
    "0x" + Digits(u)
  }

  /** Reading from the left accepts exactly the digit strings whose value fits 64 bits. */
  lemma {:induction false} ParseUintValue(done: string, raw: string)
    requires IsHex(done) && HexValue(done) < TT64
    ensures ParseUint(raw, HexValue(done)).Ok? <==> IsHex(raw) && HexValue(done + raw) < TT64
    ensures ParseUint(raw, HexValue(done)).Ok? ==> ParseUint(raw, HexValue(done)) == Ok(HexValue(done + raw))
    decreases |raw|
  {
    if raw == "" {
      assert done + raw == done;
    } else if DecodeNibble(raw[0]) >= 0 {
      if HexValue(done) < TT64 / 16 {
        var next := done + [raw[0]];
        assert done + raw == next + raw[1..];
        HexValueSnoc(done, raw[0]);
        ParseUintValue(next, raw[1..]);
        HexTail(raw);
      } else if IsHex(raw) {
        TooLarge(done, raw);
      }
    }
  }

  lemma HexTail(raw: string)
    requires raw != ""
    ensures IsHex(raw) <==> DecodeNibble(raw[0]) >= 0 && IsHex(raw[1..])
  {
    assert raw == [raw[0]] + raw[1..];
  }

  lemma TooLarge(done: string, raw: string)
    requires IsHex(done) && IsHex(raw) && raw != "" && HexValue(done) >= TT64 / 16
    ensures IsHex(done + raw) && HexValue(done + raw) >= TT64
  {
    HexValueAppend(done, raw);
    PowMonotone(16, 1, |raw|);
    MulMonotone(HexValue(done), 16, Pow(16, |raw|));
  }

  /** What Uint64.UnmarshalText makes of a text: the length is checked before the digits. */
  function Uint64Text(input: string): Result<nat> {
    match CheckNumberText(input)
    case Err(e) => Err(e)
    case Ok(raw) =>
      if |raw| > 16 then Err(Uint64Range)
      else if !IsHex(raw) then Err(Syntax)
      else Ok(HexValue(raw))
  }

  class Uint64 {
    var val: nat

    constructor (v: nat)
      ensures val == v
    {
      val := v;
    }

    /** Reads at most 16 digits with arithmetic modulo 2^64, which never wraps. An error leaves
        the number as it was. */
    method UnmarshalText(input: string) returns (err: Option<HexError>)
      modifies this
      ensures Uint64Text(input).Ok? ==> err == None && val == Uint64Text(input).value
      ensures Uint64Text(input).Err? ==> err == Some(Uint64Text(input).error) && val == old(val)
    {
      var checked := CheckNumberText(input);
      if checked.Err? {
        return Some(checked.error);
      }
      var raw := checked.value;
      if |raw| > 16 {
        return Some(Uint64Range);
      }
      Pow16Sizes();
      var dec: nat := 0;
      for i := 0 to |raw|
        invariant IsHex(raw[0..i]) && dec == HexValue(raw[0..i]) && val == old(val)
      {
        var nib := DecodeNibble(raw[i]);
        if nib == -1 {
          return Some(Syntax);
        }
        NextDigit(raw, 0, i, 16, dec);
        dec := dec * 16 % TT64;
        dec := (dec + nib) % TT64;
      }
      assert raw[0..|raw|] == raw;
      val := dec;
      return None;
    }
  }

  /** Both decoders accept the same non-empty texts and give the same value: without leading
      zeros, sixteen digits are exactly 64 bits. */
  lemma Uint64DecodersAgree(input: string)
    requires input != ""
    ensures DecodeUint64(input).Ok? <==> Uint64Text(input).Ok?
    ensures DecodeUint64(input).Ok? ==> DecodeUint64(input) == Uint64Text(input)
  {
    match CheckNumber(input)
    case Err(_) =>
    case Ok(raw) =>
      ParseUintValue("", raw);
      assert "" + raw == raw;
      if IsHex(raw) {
        SixteenDigits(raw);
      }
  }

  lemma SixteenDigits(raw: string)
    requires Canonical(raw)
    ensures |raw| <= 16 <==> HexValue(raw) < TT64
  {
    Pow16Sizes();
    HexValueBound(raw);
    if |raw| <= 16 {
      PowMonotone(16, |raw|, 16);
    } else {
      PowMonotone(16, 16, |raw| - 1);
    }
  }

  /** A printed number is read back exactly when it has at most 64 bits, which every uint64 has. */
  lemma Uint64RoundTrip(u: nat)
    ensures DecodeUint64(EncodeUint64(u)) == Ok(u) <==> u < TT64
  {
    DigitsValue(u);
    PrintedChecks(u);
    ParseUintValue("", Digits(u));
    assert "" + Digits(u) == Digits(u);
  }

  /** A non-empty text is read as a 64-bit number u exactly when in lower case it is what is printed
      for u; both decoders agree on that. */
  lemma Uint64ReadsExactly(s: string, u: nat)
    requires s != ""
    ensures Uint64Text(s) == Ok(u) <==> u < TT64 && Lower(s) == EncodeUint64(u)
    ensures DecodeUint64(s) == Ok(u) <==> u < TT64 && Lower(s) == EncodeUint64(u)
  {
    Uint64DecodersAgree(s);
    if Uint64Text(s) == Ok(u) {
      CanonicalUnique(s[2..]);
      SixteenDigits(s[2..]);
      LowerTail(s);
    }
    if u < TT64 && Lower(s) == EncodeUint64(u) {
      LowerPrinted(s, u);
      SixteenDigits(s[2..]);
    }
  }

  lemma Uint64Refusals(s: string, digits: string, x: char)
    requires x == 'x' || x == 'X'
    ensures s != "" && !Has0xPrefix(s) ==> Uint64Text(s) == Err(MissingPrefix)
    ensures Uint64Text(['0', x]) == Err(EmptyNumber)
    ensures digits != "" ==> Uint64Text(['0', x] + "0" + digits) == Err(LeadingZero)
    ensures digits != "" && digits[0] != '0' && |digits| > 16 ==> Uint64Text(['0', x] + digits) == Err(Uint64Range)
    ensures digits != "" && digits[0] != '0' && |digits| <= 16 && !IsHex(digits) ==> Uint64Text(['0', x] + digits) == Err(Syntax)
  {
    assert (['0', x] + digits)[2..] == digits;
  }

  lemma LowerTail(s: string)
    requires Has0xPrefix(s)
    ensures Lower(s) == "0x" + Lower(s[2..])
  {
  }
}
