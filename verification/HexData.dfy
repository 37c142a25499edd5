/** Hex data of bytes (pkg/common/hexutil), 32-byte hashes (pkg/types/types.go) and subscription
    ids (pkg/server/subscription.go). */
module HexData {
  import opened Numbers
  import opened Hexutil
  import opened Wrappers

  // ---------------------------------------------------------------------------------------
  // Bytes as hex

  /** encoding/hex: two lower-case digits per byte. */
  function HexOf(bs: seq<byte>): (s: string)
    ensures |s| == 2 * |bs|
    decreases |bs|
  {
    if bs == [] then ""
    else HexOf(bs[..|bs| - 1]) + [Digit(bs[|bs| - 1] / 16), Digit(bs[|bs| - 1] % 16)]
  }

  predicate IsData(raw: string) {
    |raw| % 2 == 0 && IsHex(raw)
  }

  function BytesOf(raw: string): (bs: seq<byte>)
    requires IsData(raw)
    ensures |bs| == |raw| / 2
  {
    seq(|raw| / 2, i requires 0 <= i < |raw| / 2 => 16 * DecodeNibble(raw[2 * i]) + DecodeNibble(raw[2 * i + 1]))
  }

  lemma {:induction false} HexPair(bs: seq<byte>, k: nat)
    requires k < |bs|
    ensures HexOf(bs)[2 * k] == Digit(bs[k] / 16) && HexOf(bs)[2 * k + 1] == Digit(bs[k] % 16)
    decreases |bs|
  {
    if k < |bs| - 1 {
      HexPair(bs[..|bs| - 1], k);
    }
  }

  lemma HexChar(bs: seq<byte>, i: nat)
    requires i < 2 * |bs|
    ensures HexOf(bs)[i] == Digit(if i % 2 == 0 then bs[i / 2] / 16 else bs[i / 2] % 16)
  {
    HexPair(bs, i / 2);
  }

  lemma HexIsData(bs: seq<byte>)
    ensures IsData(HexOf(bs)) && Lower(HexOf(bs)) == HexOf(bs)
  {
    var s := HexOf(bs);
    forall i | 0 <= i < |s|
      ensures DecodeNibble(s[i]) >= 0 && ToLower(s[i]) == s[i]
    {
      HexChar(bs, i);
    }
  }

  lemma HexRoundTrip(bs: seq<byte>)
    ensures IsData(HexOf(bs)) && BytesOf(HexOf(bs)) == bs
  {
    HexIsData(bs);
    var back := BytesOf(HexOf(bs));
    forall k | 0 <= k < |bs|
      ensures back[k] == bs[k]
    {
      HexPair(bs, k);
      DigitsBack(bs[k]);
    }
  }

  lemma DigitsBack(b: byte)
    ensures 16 * DecodeNibble(Digit(b / 16)) + DecodeNibble(Digit(b % 16)) == b
  {
  }

  function Encode(bs: seq<byte>): string {
    "0x" + HexOf(bs)
  }

  /** The standard decoder reports a bad digit before an odd length. */
  function Decode(input: string): Result<seq<byte>> {
    if input == "" then Err(EmptyString)
    else if !Has0xPrefix(input) then Err(MissingPrefix)
    else if !IsHex(input[2..]) then Err(Syntax)
    else if |input| % 2 != 0 then Err(OddLength)
    else Ok(BytesOf(input[2..]))
  }

  /** Data survives printing and reading. */
  lemma DataRoundTrip(bs: seq<byte>)
    ensures Decode(Encode(bs)) == Ok(bs)
  {
    HexRoundTrip(bs);
    assert Encode(bs)[2..] == HexOf(bs);
  }

  /** Reading then printing gives the text in lower case. */
  lemma DataCanonical(s: string)
    requires Decode(s).Ok?
    ensures Encode(Decode(s).value) == Lower(s)
  {
    ReadAndPrinted(s[2..]);
    LowerTail(s);
  }

  /** A text in lower case is what is printed for some bytes exactly when it is data that reads as
      these bytes. */
  lemma PrintedExactly(raw: string, bs: seq<byte>)
    ensures Lower(raw) == HexOf(bs) <==> IsData(raw) && BytesOf(raw) == bs
  {
    if Lower(raw) == HexOf(bs) {
      HexIsData(bs);
      LowerHex(raw);
      ReadAndPrinted(raw);
      HexRoundTrip(bs);
      HexRoundTrip(BytesOf(raw));
    }
    if IsData(raw) {
      ReadAndPrinted(raw);
    }
  }

  lemma ReadAndPrinted(raw: string)
    requires IsData(raw)
    ensures HexOf(BytesOf(raw)) == Lower(raw)
  {
    forall i | 0 <= i < |raw|
      ensures HexOf(BytesOf(raw))[i] == ToLower(raw[i])
    {
      PrintedChar(raw, i);
    }
  }

  /** A text is read as bytes exactly when in lower case it is what is printed for them. */
  lemma DataReadsExactly(s: string, bs: seq<byte>)
    ensures Decode(s) == Ok(bs) <==> Lower(s) == Encode(bs)
  {
    PrefixedExactly(s, bs);
    DecodesTo(s, bs);
  }

  /** Why data is refused; a bad digit is reported before an odd length. */
  lemma DataRefusals(s: string, raw: string, x: char)
    requires x == 'x' || x == 'X'
    ensures Decode("") == Err(EmptyString)
    ensures s != "" && !Has0xPrefix(s) ==> Decode(s) == Err(MissingPrefix)
    ensures !IsHex(raw) ==> Decode(['0', x] + raw) == Err(Syntax)
    ensures IsHex(raw) && |raw| % 2 == 1 ==> Decode(['0', x] + raw) == Err(OddLength)
  {
    assert (['0', x] + raw)[2..] == raw;
  }

  lemma DecodesTo(s: string, bs: seq<byte>)
    ensures Decode(s) == Ok(bs) <==> Has0xPrefix(s) && IsData(s[2..]) && BytesOf(s[2..]) == bs
  {
  }

  lemma PrefixedExactly(s: string, bs: seq<byte>)
    ensures Lower(s) == Encode(bs) <==> Has0xPrefix(s) && IsData(s[2..]) && BytesOf(s[2..]) == bs
  {
    if Lower(s) == Encode(bs) {
      LowerPrefix(s, HexOf(bs));
      PrintedExactly(s[2..], bs);
    }
    if Has0xPrefix(s) {
      LowerTail(s);
      PrintedExactly(s[2..], bs);
    }
  }

  lemma PrintedChar(raw: string, i: nat)
    requires IsData(raw) && i < |raw|
    ensures HexOf(BytesOf(raw))[i] == ToLower(raw[i])
  {
    HexChar(BytesOf(raw), i);
    LowerDigit(raw[i]);
    ByteDigits(raw, i / 2);
  }

  lemma ByteDigits(raw: string, k: nat)
    requires IsData(raw) && 2 * k < |raw|
    ensures 2 * k + 1 < |raw| && BytesOf(raw)[k] / 16 == DecodeNibble(raw[2 * k]) && BytesOf(raw)[k] % 16 == DecodeNibble(raw[2 * k + 1])
  {
    var a, b := DecodeNibble(raw[2 * k]), DecodeNibble(raw[2 * k + 1]);
    assert BytesOf(raw)[k] == 16 * a + b;
  }

  // ---------------------------------------------------------------------------------------
  // Fixed-size data

  /** What a fixed-size decoder makes of a text: the bytes, or an error. */
  function FixedBytes(input: string, wantPrefix: bool, size: nat): (r: Result<seq<byte>>)
    ensures r.Ok? ==> |r.value| == size
  {
    match CheckText(input, wantPrefix)
    case Err(e) => Err(e)
    case Ok(raw) =>
      if |raw| / 2 != size then Err(WrongLength)
      else if !IsHex(raw) then Err(Syntax)
      else Ok(BytesOf(raw))
  }

  /** A text is read as `size` bytes exactly when in lower case it is what is printed for them, with
      the prefix or, where that is optional, without it. The empty text reads as no bytes. */
  lemma FixedReadsExactly(input: string, wantPrefix: bool, size: nat, bs: seq<byte>)
    ensures FixedBytes(input, wantPrefix, size) == Ok(bs) <==>
              |bs| == size && (Lower(input) == Encode(bs) || (Lower(input) == HexOf(bs) && (!wantPrefix || input == "")))
  {
    PrefixedExactly(input, bs);
    PrintedExactly(input, bs);
    if Has0xPrefix(input) {
      assert DecodeNibble(input[1]) == -1;
    }
  }

  /** Why fixed-size data is refused; here an odd length is reported before a bad digit. */
  lemma FixedRefusals(s: string, raw: string, x: char, wantPrefix: bool, size: nat)
    requires x == 'x' || x == 'X'
    ensures s != "" && !Has0xPrefix(s) ==> FixedBytes(s, true, size) == Err(MissingPrefix)
    ensures size > 0 ==> FixedBytes("", wantPrefix, size) == Err(WrongLength)
    ensures |raw| % 2 == 1 ==> FixedBytes(['0', x] + raw, wantPrefix, size) == Err(OddLength)
    ensures |raw| % 2 == 0 && |raw| != 2 * size ==> FixedBytes(['0', x] + raw, wantPrefix, size) == Err(WrongLength)
    ensures |raw| == 2 * size && !IsHex(raw) ==> FixedBytes(['0', x] + raw, wantPrefix, size) == Err(Syntax)
  {
    assert (['0', x] + raw)[2..] == raw;
  }

  /** UnmarshalFixedText (with `wantPrefix`) and UnmarshalFixedUnprefixedText: the digits are
      checked before the first byte is written, so an error leaves `out` unchanged. */
  method UnmarshalFixed(input: string, wantPrefix: bool, out: array<byte>) returns (err: Option<HexError>)
    modifies out
    ensures match FixedBytes(input, wantPrefix, out.Length)
            case Ok(bs) => err == None && out[..] == bs
            case Err(e) => err == Some(e) && out[..] == old(out[..])
  {
    var checked := CheckText(input, wantPrefix);
    if checked.Err? {
      return Some(checked.error);
    }
    var raw := checked.value;
    if |raw| / 2 != out.Length {
      return Some(WrongLength);
    }
    for i := 0 to |raw|
      invariant forall k :: 0 <= k < i ==> DecodeNibble(raw[k]) >= 0
      invariant out[..] == old(out[..])
    {
      if DecodeNibble(raw[i]) == -1 {
        return Some(Syntax);
      }
    }
    for i := 0 to out.Length
      invariant forall k :: 0 <= k < i ==> out[k] == BytesOf(raw)[k]
    {
      out[i] := 16 * DecodeNibble(raw[2 * i]) + DecodeNibble(raw[2 * i + 1]);
    }
    return None;
  }

  // ---------------------------------------------------------------------------------------
  // Hashes

  const HASH_LENGTH := 32

  /** Copies the last bytes of `b` to the end of the hash. A shorter `b` leaves the first bytes
      as they were. */
  method SetBytes(h: array<byte>, b: seq<byte>)
    requires h.Length == HASH_LENGTH
    modifies h
    ensures |b| >= HASH_LENGTH ==> h[..] == b[|b| - HASH_LENGTH..]
    ensures |b| < HASH_LENGTH ==> h[..] == old(h[..HASH_LENGTH - |b|]) + b
  {
    var tail := if |b| > HASH_LENGTH then b[|b| - HASH_LENGTH..] else b;
    var from := HASH_LENGTH - |tail|;
    for i := 0 to |tail|
      invariant h[..from] == old(h[..from])
      invariant forall k :: 0 <= k < i ==> h[from + k] == tail[k]
    {
      h[from + i] := tail[i];
    }
    assert h[..] == h[..from] + h[from..];
    assert h[from..] == tail;
  }

  method BytesToHash(b: seq<byte>) returns (h: array<byte>)
    ensures fresh(h) && h.Length == HASH_LENGTH
    ensures FromBytes(h[..]) == FromBytes(b) % TT256
    ensures |b| == HASH_LENGTH ==> h[..] == b
  {
    h := new byte[HASH_LENGTH](_ => 0);
    SetBytes(h, b);
    FromBytesPadded(b);
    if |b| < HASH_LENGTH {
      assert h[..] == Zeros(HASH_LENGTH - |b|) + b;
      LeadingZeros(HASH_LENGTH - |b|, b);
      FromBytesPadded(h[..]);
    }
    PaddedValue(h[..], FromBytes(b));
    Pow256Sizes();
  }

  lemma Pow256Sizes()
    ensures Pow(256, 32) == TT256
  {
    assert Pow(256, 1) == 256;
    PowAdd(256, 1, 1);
    PowAdd(256, 2, 2);
    PowAdd(256, 4, 4);
    PowAdd(256, 8, 8);
    PowAdd(256, 16, 16);
  }

  function Zeros(n: nat): seq<byte> {
    seq(n, _ => 0)
  }

  lemma {:induction false} LeadingZeros(n: nat, b: seq<byte>)
    ensures FromBytes(Zeros(n) + b) == FromBytes(b)
    decreases |b|, n
  {
    var s := Zeros(n) + b;
    if b != [] {
      LeadingZeros(n, b[..|b| - 1]);
      assert s[..|s| - 1] == Zeros(n) + b[..|b| - 1];
    } else if n > 0 {
      LeadingZeros(n - 1, b);
      assert s[..|s| - 1] == Zeros(n - 1) + b;
    }
  }

  /** A number of up to 256 bits survives the way through a hash; a larger one, or a negative
      one, keeps the last 256 bits of its absolute value. */
  method BigToHash(x: int) returns (h: array<byte>)
    ensures fresh(h) && h.Length == HASH_LENGTH
    ensures FromBytes(h[..]) == Abs(x) % TT256
  {
    MinBytesValue(Abs(x));
    h := BytesToHash(MinBytes(Abs(x)));
  }

  function MarshalHash(h: seq<byte>): string {
    Encode(h)
  }

  function MarshalUnprefixed(h: seq<byte>): string {
    HexOf(h)
  }

  /** Both text forms of a value are read back to that value, also when the prefix is optional:
      plain hex digits never look like a prefix. */
  lemma FixedRoundTrip(h: seq<byte>)
    ensures FixedBytes(MarshalHash(h), true, |h|) == Ok(h)
    ensures FixedBytes(MarshalHash(h), false, |h|) == Ok(h)
    ensures FixedBytes(MarshalUnprefixed(h), false, |h|) == Ok(h)
    ensures h != [] ==> FixedBytes(MarshalUnprefixed(h), true, |h|) == Err(MissingPrefix)
  {
    HexRoundTrip(h);
    assert Encode(h)[2..] == HexOf(h);
    if h != [] {
      HexChar(h, 1);
      assert !Has0xPrefix(HexOf(h));
    }
  }

  /** A hash survives marshalling and unmarshalling in either text form. */
  method HashTextRoundTrip(h: array<byte>, unprefixed: bool) returns (g: array<byte>, err: Option<HexError>)
    requires h.Length == HASH_LENGTH
    ensures err == None && fresh(g) && g[..] == h[..]
  {
    g := new byte[HASH_LENGTH](_ => 0);
    FixedRoundTrip(h[..]);
    err := UnmarshalFixed(if unprefixed then MarshalUnprefixed(h[..]) else MarshalHash(h[..]), !unprefixed, g);
  }

  // ---------------------------------------------------------------------------------------
  // Subscription ids

  function TrimZeros(s: string): string {
    if s != "" && s[0] == '0' then TrimZeros(s[1..]) else s
  }

  /** Dropping leading zeros keeps the value and leaves it canonical, or empty for zero. */
  lemma {:induction false} TrimKeepsValue(s: string)
    requires IsHex(s)
    ensures var t := TrimZeros(s);
            && IsHex(t) && HexValue(t) == HexValue(s)
            && (t != "" ==> t[0] != '0')
  {
    if s != "" && s[0] == '0' {
      TrimKeepsValue(s[1..]);
      assert ['0'] + s[1..] == s;
      ZeroInFront(s[1..]);
    }
  }

  lemma ZeroInFront(s: string)
    requires IsHex(s)
    ensures IsHex(['0'] + s) && HexValue(['0'] + s) == HexValue(s)
  {
    assert HexValue(['0']) == 0;
    HexValueAppend(['0'], s);
  }

  lemma {:induction false} TrimStaysLower(s: string)
    requires Lower(s) == s
    ensures Lower(TrimZeros(s)) == TrimZeros(s)
  {
    if s != "" && s[0] == '0' {
      assert forall i :: 0 <= i < |s| - 1 ==> Lower(s[1..])[i] == Lower(s)[i + 1];
      TrimStaysLower(s[1..]);
    }
  }

  lemma {:induction false} HexOfValue(bs: seq<byte>)
    ensures IsHex(HexOf(bs)) && HexValue(HexOf(bs)) == FromBytes(bs)
    decreases |bs|
  {
    if bs != [] {
      var k := |bs| - 1;
      HexOfValue(bs[..k]);
      AppendByte(HexOf(bs[..k]), bs[k]);
    }
  }

  lemma AppendByte(s: string, b: byte)
    requires IsHex(s)
    ensures var t := s + [Digit(b / 16), Digit(b % 16)];
            IsHex(t) && HexValue(t) == 256 * HexValue(s) + b
  {
    var high, low := Digit(b / 16), Digit(b % 16);
    HexValueSnoc(s, high);
    HexValueSnoc(s + [high], low);
    assert s + [high, low] == s + [high] + [low];
  }

  function IdText(id: seq<byte>): string {
    var hex := TrimZeros(HexOf(id));
    "0x" + if hex == "" then "0" else hex
  }

  /** An id is the printed quantity of its bytes. */
  lemma IdIsPrinted(id: seq<byte>)
    ensures IdText(id) == EncodeBig(FromBytes(id))
  {
    HexOfValue(id);
    HexIsData(id);
    TrimKeepsValue(HexOf(id));
    TrimStaysLower(HexOf(id));
    var t := TrimZeros(HexOf(id));
    if t != "" {
      CanonicalUnique(t);
    }
  }

  /** An id of at most 32 bytes is read back to the number of its bytes. */
  lemma IdIsQuantity(id: seq<byte>)
    requires |id| <= 32
    ensures IdText(id) == EncodeBig(FromBytes(id)) && DecodedBig(IdText(id)) == Ok(FromBytes(id))
  {
    IdIsPrinted(id);
    FromBytesBound(id);
    PowMonotone(256, |id|, 32);
    Pow256Sizes();
    BigRoundTrip(FromBytes(id));
  }

  /** Ids of different bytes of one length differ. */
  lemma IdsDiffer(a: seq<byte>, b: seq<byte>)
    requires |a| == |b| <= 32 && IdText(a) == IdText(b)
    ensures a == b
  {
    IdIsQuantity(a);
    IdIsQuantity(b);
    SameValueSameBytes(a, b);
  }

  lemma SameValueSameBytes(a: seq<byte>, b: seq<byte>)
    requires |a| == |b| && FromBytes(a) == FromBytes(b)
    ensures a == b
  {
    FromBytesPadded(a);
    FromBytesPadded(b);
    forall i | 0 <= i < |a|
      ensures a[i] == b[i]
    {
      assert a[i] == ByteAt(FromBytes(a), |a| - 1 - i);
    }
  }

  /** The bytes of an id: the lowest seven bytes of each draw in turn. */
  function DrawnBytes(draws: seq<nat>): seq<byte>
    requires |draws| == 3
  {
    seq(16, k requires 0 <= k < 16 => ByteAt(draws[k / 7], k % 7))
  }

  /** The last p bytes of n. */
  function LowBytes(n: nat, p: nat): seq<byte> {
    seq(p, i requires 0 <= i < p => ByteAt(n, p - 1 - i))
  }

  ghost predicate SameLow(a: nat, b: nat, p: nat) {
    forall j :: 0 <= j < p ==> ByteAt(a, j) == ByteAt(b, j)
  }

  /** Two numbers agree in their p lowest bytes exactly when they agree modulo 256^p. */
  lemma SameLowBytes(a: nat, b: nat, p: nat)
    ensures Pow(256, p) > 0
    ensures SameLow(a, b, p) <==> a % Pow(256, p) == b % Pow(256, p)
  {
    var x, y := LowBytes(a, p), LowBytes(b, p);
    LowBytesValue(a, p);
    LowBytesValue(b, p);
    if FromBytes(x) == FromBytes(y) {
      SameValueSameBytes(x, y);
      forall j | 0 <= j < p
        ensures ByteAt(a, j) == ByteAt(b, j)
      {
        assert x[p - 1 - j] == y[p - 1 - j];
      }
    }
    if SameLow(a, b, p) {
      assert forall i :: 0 <= i < p ==> x[i] == ByteAt(a, p - 1 - i) && y[i] == ByteAt(b, p - 1 - i);
      assert x == y;
    }
  }

  lemma LowBytesValue(n: nat, p: nat)
    ensures Pow(256, p) > 0 && FromBytes(LowBytes(n, p)) == n % Pow(256, p)
  {
    PaddedValue(LowBytes(n, p), n);
  }

  /** Two ids are the same exactly when the first two draws agree in their lowest 56 bits and the
      third in its lowest 16: every other bit of a draw is dropped. */
  lemma IdsTellDrawsApart(d: seq<nat>, e: seq<nat>)
    requires |d| == |e| == 3
    ensures Pow(256, 7) > 0 && Pow(256, 2) > 0
    ensures EncodeBig(FromBytes(DrawnBytes(d))) == EncodeBig(FromBytes(DrawnBytes(e))) <==>
              && d[0] % Pow(256, 7) == e[0] % Pow(256, 7)
              && d[1] % Pow(256, 7) == e[1] % Pow(256, 7)
              && d[2] % Pow(256, 2) == e[2] % Pow(256, 2)
  {
    SameLowBytes(d[0], e[0], 7);
    SameLowBytes(d[1], e[1], 7);
    SameLowBytes(d[2], e[2], 2);
    SameDrawnBytes(d, e);
    IdIsPrinted(DrawnBytes(d));
    IdIsPrinted(DrawnBytes(e));
    if EncodeBig(FromBytes(DrawnBytes(d))) == EncodeBig(FromBytes(DrawnBytes(e))) {
      IdsDiffer(DrawnBytes(d), DrawnBytes(e));
    }
  }

  lemma SameDrawnBytes(d: seq<nat>, e: seq<nat>)
    requires |d| == |e| == 3
    ensures DrawnBytes(d) == DrawnBytes(e) <==>
              SameLow(d[0], e[0], 7) && SameLow(d[1], e[1], 7) && SameLow(d[2], e[2], 2)
  {
    if DrawnBytes(d) == DrawnBytes(e) {
      forall j | 0 <= j < 7
        ensures ByteAt(d[0], j) == ByteAt(e[0], j)
      {
        DrawnAt(d, e, j);
      }
      forall j | 0 <= j < 7
        ensures ByteAt(d[1], j) == ByteAt(e[1], j)
      {
        DrawnAt(d, e, 7 + j);
      }
      forall j | 0 <= j < 2
        ensures ByteAt(d[2], j) == ByteAt(e[2], j)
      {
        DrawnAt(d, e, 14 + j);
      }
    }
    if SameLow(d[0], e[0], 7) && SameLow(d[1], e[1], 7) && SameLow(d[2], e[2], 2) {
      forall k | 0 <= k < 16
        ensures DrawnBytes(d)[k] == DrawnBytes(e)[k]
      {
        DrawnAt(d, e, k);
      }
      assert DrawnBytes(d) == DrawnBytes(e);
    }
  }

  lemma DrawnAt(d: seq<nat>, e: seq<nat>, k: nat)
    requires |d| == |e| == 3 && k < 16
    ensures DrawnBytes(d)[k] == if k < 7 then ByteAt(d[0], k) else if k < 14 then ByteAt(d[1], k - 7) else ByteAt(d[2], k - 14)
    ensures DrawnBytes(e)[k] == if k < 7 then ByteAt(e[0], k) else if k < 14 then ByteAt(e[1], k - 7) else ByteAt(e[2], k - 14)
  {
  }

  /** `draws` are the three 63-bit numbers of the generator. Each byte of the id is written once,
      seven from each draw, lowest byte first. */
  method NewID(draws: seq<nat>) returns (text: string)
    requires |draws| == 3
    ensures text == EncodeBig(FromBytes(DrawnBytes(draws)))
    ensures DecodedBig(text) == Ok(FromBytes(DrawnBytes(draws)))
  {
    var bytes := new byte[16](_ => 0);
    var i := 0;
    while i < bytes.Length
      invariant i % 7 == 0 && i <= 21
      invariant forall k :: 0 <= k < i && k < 16 ==> bytes[k] == ByteAt(draws[k / 7], k % 7)
      decreases 21 - i
    {
      WriteChunk(bytes, i, draws[i / 7]);
      i := i + 7;
    }
    ghost var id := bytes[..];
    assert id == DrawnBytes(draws);
    var hex := TrimZeros(HexOf(bytes[..]));
    if hex == "" {
      hex := "0";
    }
    text := "0x" + hex;
    IdIsQuantity(id);
  }

  /** The inner loop: up to seven bytes of one draw, each written once. */
  method WriteChunk(bytes: array<byte>, i: nat, draw: nat)
    requires i < bytes.Length
    modifies bytes
    ensures forall k :: i <= k < bytes.Length && k < i + 7 ==> bytes[k] == ByteAt(draw, k - i)
    ensures forall k :: 0 <= k < bytes.Length && !(i <= k < i + 7) ==> bytes[k] == old(bytes[k])
  {
    var val, j := draw, 0;
    while j < 7 && i + j < bytes.Length
      invariant j <= 7 && i + j <= bytes.Length
      invariant forall m: nat :: ByteAt(val, m) == ByteAt(draw, j + m)
      invariant forall k :: i <= k < i + j ==> bytes[k] == ByteAt(draw, k - i)
      invariant forall k :: 0 <= k < bytes.Length && !(i <= k < i + j) ==> bytes[k] == old(bytes[k])
    {
      assert ByteAt(val, 0) == ByteAt(draw, j);
      bytes[i + j] := val % 256;
      ShiftedByte(val, draw, j);
      val := val / 256;
      j := j + 1;
    }
  }
}
