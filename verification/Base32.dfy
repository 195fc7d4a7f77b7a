/**
 The unpadded base32 of authenticator secrets (apps/api/src/auth/totp.ts), through its 32-bit shift
 buffers, against the bit strings of section 6 of RFC 4648.
 */
module Base32 {
  import opened Numbers
  import opened Sequences
  import opened Wrappers

  const TWO_TO_THE_32 := 0x1_0000_0000

  // ---------------------------------------------------------------------------
  // Bit strings

  function Bit(n: int, k: nat): int
    decreases k, n
  {
    if k == 0 then n % 2 else Bit(n / 2, k - 1)
  }

  /** The low w bits of n, most significant first. */
  function BitsOf(n: int, w: nat): seq<int> {
    seq(w, i requires 0 <= i < w => Bit(n, w - 1 - i))
  }

  lemma BitsSnoc(n: int, w: nat)
    requires w > 0
    ensures BitsOf(n, w) == BitsOf(n / 2, w - 1) + [n % 2]
  {
    var shorter := BitsOf(n / 2, w - 1) + [n % 2];
    forall i | 0 <= i < w ensures BitsOf(n, w)[i] == shorter[i] {
      assert BitsOf(n, w)[i] == Bit(n, w - 1 - i);
    }
  }

  /** The bytes written out at eight bits each. */
  function ByteBits(bytes: seq<int>): seq<int> {
    if bytes == [] then [] else ByteBits(bytes[..|bytes| - 1]) + BitsOf(bytes[|bytes| - 1], 8)
  }

  function Zeros(n: nat): seq<int> {
    seq(n, _ => 0)
  }

  predicate Below(xs: seq<int>, bound: int) {
    forall i :: 0 <= i < |xs| ==> 0 <= xs[i] < bound
  }

  lemma BytesSnoc(bytes: seq<int>, x: int)
    ensures ByteBits(bytes + [x]) == ByteBits(bytes) + BitsOf(x, 8)
  {
    assert (bytes + [x])[..|bytes|] == bytes;
  }

  lemma {:induction false} BytesLength(bytes: seq<int>)
    ensures |ByteBits(bytes)| == 8 * |bytes|
  {
    if bytes != [] {
      BytesLength(bytes[..|bytes| - 1]);
    }
  }

  lemma HalvesAgree(x: int, y: int)
    requires x / 2 == y / 2 && x % 2 == y % 2
    ensures x == y
  {
  }

  lemma {:induction false} BitsAreInjective(x: int, y: int, w: nat)
    requires 0 <= x < PowerOfTwo(w) && 0 <= y < PowerOfTwo(w) && BitsOf(x, w) == BitsOf(y, w)
    ensures x == y
    decreases w
  {
    if w > 0 {
      BitsSnoc(x, w);
      BitsSnoc(y, w);
      SplitsAgree(BitsOf(x / 2, w - 1), [x % 2], BitsOf(y / 2, w - 1), [y % 2]);
      BitsAreInjective(x / 2, y / 2, w - 1);
      assert [x % 2][0] == [y % 2][0];
      HalvesAgree(x, y);
    }
  }

  /** A bit string comes from one list of bytes at most. */
  lemma {:induction false} BytesAreInjective(xs: seq<int>, ys: seq<int>)
    requires |xs| == |ys| && Below(xs, 256) && Below(ys, 256) && ByteBits(xs) == ByteBits(ys)
    ensures xs == ys
  {
    if xs != [] {
      var a, b := xs[..|xs| - 1], ys[..|ys| - 1];
      BytesLength(a);
      BytesLength(b);
      SplitsAgree(ByteBits(a), BitsOf(xs[|xs| - 1], 8), ByteBits(b), BitsOf(ys[|ys| - 1], 8));
      SmallPowers();
      BitsAreInjective(xs[|xs| - 1], ys[|ys| - 1], 8);
      BytesAreInjective(a, b);
      LastApart(xs);
      LastApart(ys);
    }
  }

  // ---------------------------------------------------------------------------
  // Shifting

  function Shr(value: int, k: nat): int
    decreases k, value
  {
    if k == 0 then value else Shr(value / 2, k - 1)
  }

  function Shl(value: int, k: nat): int {
    if k == 0 then value else 2 * Shl(value, k - 1)
  }

  lemma HalfOfShifted(v: int, p: int, l: int)
    ensures (v * (2 * p) + l) / 2 == v * p + l / 2 && (v * (2 * p) + l) % 2 == l % 2
  {
    assert v * (2 * p) == 2 * (v * p);
  }

  /** Shifting left by k and adding k low bits appends them. */
  lemma {:induction false} ShiftAppends(v: int, w: nat, l: int, k: nat)
    requires 0 <= l < PowerOfTwo(k)
    ensures BitsOf(v * PowerOfTwo(k) + l, w + k) == BitsOf(v, w) + BitsOf(l, k)
    decreases k
  {
    if k == 0 {
      assert v * PowerOfTwo(0) + l == v;
      assert BitsOf(l, 0) == [];
    } else {
      ShiftAppends(v, w, l / 2, k - 1);
      BitsSnoc(v * PowerOfTwo(k) + l, w + k);
      BitsSnoc(l, k);
      HalfOfShifted(v, PowerOfTwo(k - 1), l);
      Regroup(BitsOf(v, w), BitsOf(l / 2, k - 1), [l % 2]);
    }
  }

  lemma EuclidByPower(x: int, p: int) returns (q: int, r: int)
    requires p >= 1
    ensures q == x / p && r == x % p && x == q * p + r && 0 <= r < p
  {
    q, r := x / p, x % p;
  }

  /** The low w bits do not see what lies above them. */
  lemma {:induction false} LowBits(h: int, l: int, w: nat, m: nat)
    requires w <= m
    ensures BitsOf(h * PowerOfTwo(m) + l, w) == BitsOf(l, w)
    decreases w
  {
    if w > 0 {
      BitsSnoc(h * PowerOfTwo(m) + l, w);
      BitsSnoc(l, w);
      HalfOfShifted(h, PowerOfTwo(m - 1), l);
      LowBits(h, l / 2, w - 1, m - 1);
    }
  }

  /** Nor what a wider wrap-around removed. */
  lemma WrapKeepsLowBits(x: int, w: nat, m: nat)
    requires w <= m
    ensures BitsOf(x % PowerOfTwo(m), w) == BitsOf(x, w)
  {
    var q, r := EuclidByPower(x, PowerOfTwo(m));
    LowBits(q, r, w, m);
  }

  /** Shifting right by k exposes the bits above the low k. */
  lemma {:induction false} SplitTop(x: int, t: nat, k: nat)
    ensures BitsOf(x, t + k) == BitsOf(Shr(x, k), t) + BitsOf(x, k)
    decreases k
  {
    if k == 0 {
      assert BitsOf(x, 0) == [];
    } else {
      SplitTop(x / 2, t, k - 1);
      BitsSnoc(x, t + k);
      BitsSnoc(x, k);
      Regroup(BitsOf(Shr(x, k), t), BitsOf(x / 2, k - 1), [x % 2]);
    }
  }

  /** Shifting left by k brings in zeros. */
  lemma {:induction false} ShlFills(x: int, w: nat, k: nat)
    ensures BitsOf(Shl(x, k), w + k) == BitsOf(x, w) + Zeros(k)
    decreases k
  {
    if k == 0 {
      assert Zeros(0) == [];
    } else {
      ShlFills(x, w, k - 1);
      BitsSnoc(Shl(x, k), w + k);
      assert Shl(x, k) / 2 == Shl(x, k - 1) && Shl(x, k) % 2 == 0;
      assert Zeros(k) == Zeros(k - 1) + [0];
      Regroup(BitsOf(x, w), Zeros(k - 1), [0]);
    }
  }

  lemma SmallPowers()
    ensures PowerOfTwo(5) == 32 && PowerOfTwo(8) == 256
  {
  }

  lemma WordSize()
    ensures PowerOfTwo(32) == TWO_TO_THE_32
  {
    SmallPowers();
    assert PowerOfTwo(16) == 65536 by { PowersAdd(8, 8); }
    PowersAdd(16, 16);
  }

  lemma {:induction false} PowersAdd(a: nat, b: nat)
    ensures PowerOfTwo(a + b) == PowerOfTwo(a) * PowerOfTwo(b)
  {
    if b > 0 {
      PowersAdd(a, b - 1);
      assert PowerOfTwo(a) * (2 * PowerOfTwo(b - 1)) == 2 * (PowerOfTwo(a) * PowerOfTwo(b - 1));
    }
  }

  // ---------------------------------------------------------------------------
  // The alphabet, and what text means

  function SymbolOf(index: int): char
    requires 0 <= index < 32
  {
    if index < 26 then ('A' as int + index) as char else ('2' as int + index - 26) as char
  }

  function IndexOf(c: char): int {
    if 'A' <= c <= 'Z' then c as int - 'A' as int
    else if '2' <= c <= '7' then c as int - '2' as int + 26
    else -1
  }

  lemma AlphabetRoundTrip(index: int, c: char)
    ensures 0 <= index < 32 ==> IndexOf(SymbolOf(index)) == index
    ensures IndexOf(c) != -1 ==> 0 <= IndexOf(c) < 32 && SymbolOf(IndexOf(c)) == c
  {
  }

  /** The bits that a text spells, five a symbol. */
  function TextBits(text: string): seq<int> {
    if text == "" then [] else TextBits(text[..|text| - 1]) + BitsOf(IndexOf(text[|text| - 1]), 5)
  }

  predicate InAlphabet(text: string) {
    forall i :: 0 <= i < |text| ==> IndexOf(text[i]) != -1
  }

  lemma TextSnoc(text: string, c: char)
    ensures TextBits(text + [c]) == TextBits(text) + BitsOf(IndexOf(c), 5)
    ensures InAlphabet(text + [c]) <==> InAlphabet(text) && IndexOf(c) != -1
  {
    assert (text + [c])[..|text|] == text;
    if InAlphabet(text + [c]) {
      assert (text + [c])[|text|] == c;
      forall k | 0 <= k < |text| ensures IndexOf(text[k]) != -1 {
        assert (text + [c])[k] == text[k];
      }
    }
  }

  lemma {:induction false} TextLength(text: string)
    ensures |TextBits(text)| == 5 * |text|
  {
    if text != "" {
      TextLength(text[..|text| - 1]);
    }
  }

  /** Symbols of the alphabet spell different bits. */
  lemma SymbolsAreInjective(x: char, y: char)
    requires IndexOf(x) != -1 && IndexOf(y) != -1 && BitsOf(IndexOf(x), 5) == BitsOf(IndexOf(y), 5)
    ensures x == y
  {
    SmallPowers();
    AlphabetRoundTrip(0, x);
    AlphabetRoundTrip(0, y);
    BitsAreInjective(IndexOf(x), IndexOf(y), 5);
  }

  lemma {:induction false} TextsAreInjective(s: string, t: string)
    requires |s| == |t| && InAlphabet(s) && InAlphabet(t) && TextBits(s) == TextBits(t)
    ensures s == t
  {
    if s != "" {
      var a, b := s[..|s| - 1], t[..|t| - 1];
      TextLength(a);
      TextLength(b);
      SplitsAgree(TextBits(a), BitsOf(IndexOf(s[|s| - 1]), 5), TextBits(b), BitsOf(IndexOf(t[|t| - 1]), 5));
      SymbolsAreInjective(s[|s| - 1], t[|t| - 1]);
      TextsAreInjective(a, b);
      LastApart(s);
      LastApart(t);
    }
  }

  /** `text` spells the bits of `bytes`, filled up with fewer than five zeros. */
  predicate Encodes(bytes: seq<int>, text: string, pad: nat) {
    InAlphabet(text) && pad < 5 && TextBits(text) == ByteBits(bytes) + Zeros(pad)
  }

  ghost predicate IsEncoding(bytes: seq<int>, text: string) {
    exists pad: nat :: Encodes(bytes, text, pad)
  }

  /** `bytes` are the whole bytes of the bits that `letters` spell; fewer than eight bits are left over. */
  predicate Decodes(letters: string, bytes: seq<int>, rest: seq<int>) {
    InAlphabet(letters) && Below(bytes, 256) && |rest| < 8 && TextBits(letters) == ByteBits(bytes) + rest
  }

  ghost predicate IsDecoding(letters: string, bytes: seq<int>) {
    exists rest :: Decodes(letters, bytes, rest)
  }

  // ---------------------------------------------------------------------------
  // The bit buffer

  /** `(value << k) | low`: low's bits join the buffer behind the ones it holds. */
  method ShiftIn(value: int, bits: nat, k: nat, low: int) returns (shifted: int)
    requires 0 <= low < PowerOfTwo(k) && bits + k <= 32
    ensures BitsOf(shifted, bits + k) == BitsOf(value, bits) + BitsOf(low, k)
  {
    shifted := (value * PowerOfTwo(k) + low) % TWO_TO_THE_32;
    ShiftAppends(value, bits, low, k);
    WordSize();
    WrapKeepsLowBits(value * PowerOfTwo(k) + low, bits + k, 32);
  }

  /** `(value >>> (bits - t)) & (2^t - 1)`: the oldest t bits the buffer holds. */
  method Oldest(value: int, bits: nat, t: nat) returns (field: int)
    requires t <= bits
    ensures 0 <= field < PowerOfTwo(t)
    ensures BitsOf(value, bits) == BitsOf(field, t) + BitsOf(value, bits - t)
  {
    field := Shr(value, bits - t) % PowerOfTwo(t);
    WrapKeepsLowBits(Shr(value, bits - t), t, t);
    SplitTop(value, t, bits - t);
  }

  /** `(value << (5 - bits)) & 31`: the last bits, filled up with zeros. */
  method FilledUp(value: int, bits: nat) returns (field: int)
    requires bits < 5
    ensures 0 <= field < 32 && BitsOf(field, 5) == BitsOf(value, bits) + Zeros(5 - bits)
  {
    field := Shl(value, 5 - bits) % TWO_TO_THE_32 % 32;
    SmallPowers();
    WordSize();
    WrapKeepsLowBits(Shl(value, 5 - bits) % TWO_TO_THE_32, 5, 5);
    WrapKeepsLowBits(Shl(value, 5 - bits), 5, 32);
    ShlFills(value, bits, 5 - bits);
  }

  /** Reading a byte moves its bits to the tail of the buffer. */
  lemma ReadsByte(bytes: seq<int>, i: nat, out: seq<int>, held: seq<int>, now: seq<int>)
    requires i < |bytes| && ByteBits(bytes[..i]) == out + held && now == held + BitsOf(bytes[i], 8)
    ensures ByteBits(bytes[..i + 1]) == out + now
  {
    assert bytes[..i + 1] == bytes[..i] + [bytes[i]];
    BytesSnoc(bytes[..i], bytes[i]);
    Regroup(out, held, BitsOf(bytes[i], 8));
  }

  lemma ReadsSymbol(text: string, i: nat, out: seq<int>, held: seq<int>, now: seq<int>)
    requires i < |text| && InAlphabet(text[..i]) && IndexOf(text[i]) != -1
    requires TextBits(text[..i]) == out + held && now == held + BitsOf(IndexOf(text[i]), 5)
    ensures InAlphabet(text[..i + 1]) && TextBits(text[..i + 1]) == out + now
  {
    assert text[..i + 1] == text[..i] + [text[i]];
    TextSnoc(text[..i], text[i]);
    Regroup(out, held, BitsOf(IndexOf(text[i]), 5));
  }

  lemma WholePrefix<T>(xs: seq<T>)
    ensures xs[..|xs|] == xs
  {
  }

  /** Five bits of the buffer become a symbol. */
  method EmitSymbol(out: string, value: int, bits: nat, ghost all: seq<int>) returns (longer: string)
    requires bits >= 5 && InAlphabet(out) && all == TextBits(out) + BitsOf(value, bits)
    ensures InAlphabet(longer) && all == TextBits(longer) + BitsOf(value, bits - 5)
  {
    SmallPowers();
    var index := Oldest(value, bits, 5);
    AlphabetRoundTrip(index, SymbolOf(index));
    TextSnoc(out, SymbolOf(index));
    Regroup(TextBits(out), BitsOf(index, 5), BitsOf(value, bits - 5));
    longer := out + [SymbolOf(index)];
  }

  /** Eight bits of the buffer become a byte. */
  method EmitByte(out: seq<int>, value: int, bits: nat, ghost all: seq<int>) returns (longer: seq<int>)
    requires bits >= 8 && Below(out, 256) && all == ByteBits(out) + BitsOf(value, bits)
    ensures Below(longer, 256) && all == ByteBits(longer) + BitsOf(value, bits - 8)
  {
    SmallPowers();
    var byte := Oldest(value, bits, 8);
    BytesSnoc(out, byte);
    Regroup(ByteBits(out), BitsOf(byte, 8), BitsOf(value, bits - 8));
    longer := out + [byte];
  }

  // ---------------------------------------------------------------------------
  // base32Encode

  method Encode(bytes: seq<int>) returns (out: string)
    requires Below(bytes, 256)
    ensures IsEncoding(bytes, out)
  {
    SmallPowers();
    var bits: nat, value := 0, 0;
    out := "";
    for i := 0 to |bytes|
      invariant bits < 5 && InAlphabet(out)
      invariant ByteBits(bytes[..i]) == TextBits(out) + BitsOf(value, bits)
    {
      ghost var before := value;
      value := ShiftIn(value, bits, 8, bytes[i]);
      ReadsByte(bytes, i, TextBits(out), BitsOf(before, bits), BitsOf(value, bits + 8));
      bits := bits + 8;
      while bits >= 5
        invariant InAlphabet(out)
        invariant ByteBits(bytes[..i + 1]) == TextBits(out) + BitsOf(value, bits)
      {
        out := EmitSymbol(out, value, bits, ByteBits(bytes[..i + 1]));
        bits := bits - 5;
      }
    }
    WholePrefix(bytes);
    if bits > 0 {
      var index := FilledUp(value, bits);
      FilledUpEncodes(bytes, out, BitsOf(value, bits), index);
      out := out + [SymbolOf(index)];
    } else {
      assert BitsOf(value, 0) == Zeros(0);
      assert Encodes(bytes, out, 0);
    }
  }

  lemma FilledUpEncodes(bytes: seq<int>, out: string, held: seq<int>, index: int)
    requires InAlphabet(out) && 0 <= index < 32 && 0 < |held| < 5
    requires ByteBits(bytes) == TextBits(out) + held && BitsOf(index, 5) == held + Zeros(5 - |held|)
    ensures Encodes(bytes, out + [SymbolOf(index)], 5 - |held|)
  {
    AlphabetRoundTrip(index, SymbolOf(index));
    TextSnoc(out, SymbolOf(index));
    Regroup(TextBits(out), held, Zeros(5 - |held|));
  }

  // ---------------------------------------------------------------------------
  // base32Decode

  datatype Base32Error = InvalidBase32

  /** toUpperCase, for the characters whose upper-case form lies in the alphabet; the others stay outside it. */
  function Upper(c: char): string {
    if 'a' <= c <= 'z' then [(c as int - 32) as char]
    else if c == '\U{0131}' then "I"
    else if c == '\U{017F}' then "S"
    else if c == '\U{00DF}' then "SS"
    else if c == '\U{FB00}' then "FF"
    else if c == '\U{FB01}' then "FI"
    else if c == '\U{FB02}' then "FL"
    else if c == '\U{FB03}' then "FFI"
    else if c == '\U{FB04}' then "FFL"
    else if c == '\U{FB05}' || c == '\U{FB06}' then "ST"
    else [c]
  }

  /** `[\s-]`. */
  predicate Separator(c: char) {
    || c == ' ' || c == '-' || '\t' <= c <= '\r' || c == '\U{00A0}' || c == '\U{1680}' || '\U{2000}' <= c <= '\U{200A}'
    || c == '\U{2028}' || c == '\U{2029}' || c == '\U{202F}' || c == '\U{205F}' || c == '\U{3000}' || c == '\U{FEFF}'
  }

  /** Upper-cased, without separators. */
  function Letters(text: string): string {
    if text == "" then ""
    else
      var c := text[|text| - 1];
      Letters(text[..|text| - 1]) + if Separator(c) then "" else Upper(c)
  }

  function WithoutTrailingEquals(text: string): string {
    if text != "" && text[|text| - 1] == '=' then WithoutTrailingEquals(text[..|text| - 1]) else text
  }

  function Normalized(text: string): string {
    Letters(WithoutTrailingEquals(text))
  }

  method Decode(text: string) returns (r: Result<seq<int>, Base32Error>)
    ensures r.Success? <==> InAlphabet(Normalized(text))
    ensures r.Success? ==> IsDecoding(Normalized(text), r.value)
  {
    r := DecodeLetters(Normalized(text));
  }

  method DecodeLetters(letters: string) returns (r: Result<seq<int>, Base32Error>)
    ensures r.Success? <==> InAlphabet(letters)
    ensures r.Success? ==> IsDecoding(letters, r.value)
  {
    SmallPowers();
    var bits: nat, value := 0, 0;
    var out: seq<int> := [];
    for i := 0 to |letters|
      invariant bits < 8 && InAlphabet(letters[..i]) && Below(out, 256)
      invariant TextBits(letters[..i]) == ByteBits(out) + BitsOf(value, bits)
    {
      var index := IndexOf(letters[i]);
      if index == -1 {
        return Failure(InvalidBase32);
      }
      ghost var before := value;
      AlphabetRoundTrip(0, letters[i]);
      value := ShiftIn(value, bits, 5, index);
      ReadsSymbol(letters, i, ByteBits(out), BitsOf(before, bits), BitsOf(value, bits + 5));
      bits := bits + 5;
      if bits >= 8 {
        out := EmitByte(out, value, bits, TextBits(letters[..i + 1]));
        bits := bits - 8;
      }
    }
    WholePrefix(letters);
    assert Decodes(letters, out, BitsOf(value, bits));
    r := Success(out);
  }

  // ---------------------------------------------------------------------------
  // Round trips

  lemma CountIsForced(n: nat, a: nat, b: nat)
    requires 8 * a <= n < 8 * a + 8 && 8 * b <= n < 8 * b + 8
    ensures a == b
  {
  }

  /** Letters decode to one byte string. */
  lemma DecodingIsUnique(letters: string, a: seq<int>, b: seq<int>)
    requires IsDecoding(letters, a) && IsDecoding(letters, b)
    ensures a == b
  {
    var x :| Decodes(letters, a, x);
    var y :| Decodes(letters, b, y);
    BytesLength(a);
    BytesLength(b);
    CountIsForced(|TextBits(letters)|, |a|, |b|);
    SplitsAgree(ByteBits(a), x, ByteBits(b), y);
    BytesAreInjective(a, b);
  }

  lemma GroupsAreForced(n: nat, a: nat, b: nat, pad: nat, qad: nat)
    requires 5 * a == 8 * n + pad && 5 * b == 8 * n + qad && pad < 5 && qad < 5
    ensures a == b && pad == qad
  {
  }

  /** Bytes have one encoding. */
  lemma EncodingIsUnique(bytes: seq<int>, s: string, t: string)
    requires IsEncoding(bytes, s) && IsEncoding(bytes, t)
    ensures s == t
  {
    var pad: nat :| Encodes(bytes, s, pad);
    var qad: nat :| Encodes(bytes, t, qad);
    BytesLength(bytes);
    TextLength(s);
    TextLength(t);
    GroupsAreForced(|bytes|, |s|, |t|, pad, qad);
    TextsAreInjective(s, t);
  }

  lemma {:induction false} EqualsAreStripped(body: string, equals: nat)
    requires body == "" || body[|body| - 1] != '='
    ensures WithoutTrailingEquals(body + seq(equals, _ => '=')) == body
  {
    var text := body + seq(equals, _ => '=');
    if equals == 0 {
      assert text == body;
    } else {
      assert text[..|text| - 1] == body + seq(equals - 1, _ => '=');
      EqualsAreStripped(body, equals - 1);
    }
  }

  /** Letters of a text are gathered symbol by symbol, so separators and case can vary anywhere. */
  lemma {:induction false} CaseAndSeparatorsDoNotMatter(a: string, b: string, c: char)
    ensures Letters(a + b) == Letters(a) + Letters(b)
    ensures Letters([c]) == if Separator(c) then "" else Upper(c)
  {
    assert [c][..0] == "";
    if b == "" {
      assert a + b == a;
    } else {
      assert (a + b)[..|a + b| - 1] == a + b[..|b| - 1];
      CaseAndSeparatorsDoNotMatter(a, b[..|b| - 1], c);
    }
  }

  lemma EqualsIsItself()
    ensures !Separator('=') && Upper('=') == ['='] && IndexOf('=') == -1
  {
  }

  lemma LettersHaveNoEquals(body: string)
    requires InAlphabet(Letters(body))
    ensures body == "" || body[|body| - 1] != '='
  {
    if body != "" {
      var init, last := body[..|body| - 1], body[|body| - 1];
      LastApart(body);
      CaseAndSeparatorsDoNotMatter(init, [last], last);
      EqualsIsItself();
      TextSnoc(Letters(init), last);
    }
  }

  /** A letter as it may be typed: itself or lower-cased. */
  predicate TypedAs(letter: char, c: char) {
    c == letter || ('A' <= letter <= 'Z' && c as int == letter as int + 32)
  }

  /** `body` spells `text`, with letters lower-cased and separators inserted at will. */
  predicate Variant(text: string, body: string)
    decreases |body|
  {
    if body == "" then text == ""
    else
      var init, c := body[..|body| - 1], body[|body| - 1];
      if Separator(c) then Variant(text, init)
      else text != "" && TypedAs(text[|text| - 1], c) && Variant(text[..|text| - 1], init)
  }

  lemma TypedLetters(letter: char, c: char)
    requires IndexOf(letter) != -1 && TypedAs(letter, c)
    ensures !Separator(c) && Upper(c) == [letter]
  {
  }

  /** Normalising a variant gives the text back. */
  lemma {:induction false} VariantsHaveItsLetters(text: string, body: string)
    requires InAlphabet(text) && Variant(text, body)
    ensures Letters(body) == text
    decreases |body|
  {
    if body != "" {
      var init, c := body[..|body| - 1], body[|body| - 1];
      if Separator(c) {
        VariantsHaveItsLetters(text, init);
      } else {
        var shorter, letter := text[..|text| - 1], text[|text| - 1];
        LastApart(text);
        TextSnoc(shorter, letter);
        TypedLetters(letter, c);
        VariantsHaveItsLetters(shorter, init);
      }
    }
  }

  lemma {:induction false} AVariantOfItself(text: string)
    requires InAlphabet(text)
    ensures Variant(text, text)
  {
    if text != "" {
      var shorter, letter := text[..|text| - 1], text[|text| - 1];
      LastApart(text);
      TextSnoc(shorter, letter);
      TypedLetters(letter, letter);
      AVariantOfItself(shorter);
    }
  }

  /**
   Whatever was encoded is decoded back to itself and nothing else, also after lower-casing letters,
   inserting spaces and dashes anywhere, and appending padding.
   */
  lemma RoundTrip(bytes: seq<int>, text: string, body: string, equals: nat, decoded: seq<int>)
    requires Below(bytes, 256) && IsEncoding(bytes, text) && Variant(text, body)
    ensures Normalized(body + seq(equals, _ => '=')) == text && InAlphabet(text)
    ensures IsDecoding(Normalized(body + seq(equals, _ => '=')), decoded) <==> decoded == bytes
  {
    var pad: nat :| Encodes(bytes, text, pad);
    VariantsHaveItsLetters(text, body);
    LettersHaveNoEquals(body);
    EqualsAreStripped(body, equals);
    assert Decodes(text, bytes, Zeros(pad));
    if IsDecoding(text, decoded) {
      DecodingIsUnique(text, decoded, bytes);
    }
  }

  /** Decoding any variant of an encoding yields the bytes that were encoded. */
  method DecodeVariant(ghost bytes: seq<int>, ghost text: string, body: string, equals: nat) returns (r: Result<seq<int>, Base32Error>)
    requires Below(bytes, 256) && IsEncoding(bytes, text) && Variant(text, body)
    ensures r == Success(bytes)
  {
    RoundTrip(bytes, text, body, equals, bytes);
    r := Decode(body + seq(equals, _ => '='));
    RoundTrip(bytes, text, body, equals, r.value);
  }

  /** In particular the encoding itself. */
  method EncodeAndDecode(bytes: seq<int>) returns (text: string, r: Result<seq<int>, Base32Error>)
    requires Below(bytes, 256)
    ensures IsEncoding(bytes, text) && r == Success(bytes)
  {
    text := Encode(bytes);
    ghost var pad: nat :| Encodes(bytes, text, pad);
    AVariantOfItself(text);
    r := DecodeVariant(bytes, text, text, 0);
  }

  /** Decoding and encoding again gives the same letters exactly when the left-over bits are fewer than five, all zero. */
  lemma ReencodesIffCanonical(letters: string, bytes: seq<int>, rest: seq<int>)
    requires Decodes(letters, bytes, rest)
    ensures IsEncoding(bytes, letters) <==> |rest| < 5 && rest == Zeros(|rest|)
  {
    if IsEncoding(bytes, letters) {
      var pad: nat :| Encodes(bytes, letters, pad);
      SplitsAgree(ByteBits(bytes), rest, ByteBits(bytes), Zeros(pad));
    }
    if |rest| < 5 && rest == Zeros(|rest|) {
      assert Encodes(bytes, letters, |rest|);
    }
  }
}
