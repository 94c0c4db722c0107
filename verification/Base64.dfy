/** The base64 of section 4 of RFC 4648: encoder, decoder, and the length the SDK computes without decoding. */
module Base64 {
  import opened Text

  type Byte = x: nat | x < 256

  datatype Option<+T> = None | Some(value: T)

  function Symbol(i: nat): char
    requires i < 64
  {
    if i < 26 then ('A' as int + i) as char
    else if i < 52 then ('a' as int + (i - 26)) as char
    else if i < 62 then ('0' as int + (i - 52)) as char
    else if i == 62 then '+' else '/'
  }

  predicate IsSymbol(c: char) {
    'A' <= c <= 'Z' || 'a' <= c <= 'z' || '0' <= c <= '9' || c == '+' || c == '/'
  }

  function ValueOf(c: char): (i: nat)
    requires IsSymbol(c)
    ensures i < 64 && Symbol(i) == c
  {
    if 'A' <= c <= 'Z' then c as int - 'A' as int
    else if 'a' <= c <= 'z' then c as int - 'a' as int + 26
    else if '0' <= c <= '9' then c as int - '0' as int + 52
    else if c == '+' then 62 else 63
  }

  lemma SymbolIsASymbol(i: nat)
    requires i < 64
    ensures IsSymbol(Symbol(i)) && ValueOf(Symbol(i)) == i
  {
  }

  // ----- encoding and decoding -----

  function EncodeThree(a: Byte, b: Byte, c: Byte): string {
    [Symbol(a / 4), Symbol(a % 4 * 16 + b / 16), Symbol(b % 16 * 4 + c / 64), Symbol(c % 64)]
  }

  function EncodeTwo(a: Byte, b: Byte): string {
    EncodeThree(a, b, 0)[..3] + "="
  }

  function EncodeOne(a: Byte): string {
    EncodeThree(a, 0, 0)[..2] + "=="
  }

  function Encode(bytes: seq<Byte>): string {
    if |bytes| == 0 then ""
    else if |bytes| == 1 then EncodeOne(bytes[0])
    else if |bytes| == 2 then EncodeTwo(bytes[0], bytes[1])
    else EncodeThree(bytes[0], bytes[1], bytes[2]) + Encode(bytes[3..])
  }

  function DecodeFour(i: nat, j: nat, k: nat, l: nat): seq<Byte>
    requires i < 64 && j < 64 && k < 64 && l < 64
  {
    [i * 4 + j / 16, j % 16 * 16 + k / 4, k % 4 * 64 + l]
  }

  /** The last group, which alone may be padded. */
  function DecodeLast(g: string): Option<seq<Byte>>
    requires |g| == 4
  {
    if !IsSymbol(g[0]) || !IsSymbol(g[1]) then None
    else if IsSymbol(g[2]) && IsSymbol(g[3]) then
      Some(DecodeFour(ValueOf(g[0]), ValueOf(g[1]), ValueOf(g[2]), ValueOf(g[3])))
    else if IsSymbol(g[2]) && g[3] == '=' then
      Some(DecodeFour(ValueOf(g[0]), ValueOf(g[1]), ValueOf(g[2]), 0)[..2])
    else if g[2] == '=' && g[3] == '=' then
      Some(DecodeFour(ValueOf(g[0]), ValueOf(g[1]), 0, 0)[..1])
    else None
  }

  function Decode(text: string): Option<seq<Byte>> {
    if text == "" then Some([])
    else if |text| < 4 then None
    else if |text| == 4 then DecodeLast(text)
    else
      var first, rest := DecodeLast(text[..4]), Decode(text[4..]);
      if first.Some? && |first.value| == 3 && rest.Some? then Some(first.value + rest.value) else None
  }

  /** Three bytes cut into four six-bit numbers and put together again. */
  lemma Regrouped(x: Byte, y: Byte, z: Byte)
    ensures var (i, j, k, l) := (x / 4, x % 4 * 16 + y / 16, y % 16 * 4 + z / 64, z % 64);
      i < 64 && j < 64 && k < 64 && l < 64 && i * 4 + j / 16 == x && j % 16 * 16 + k / 4 == y && k % 4 * 64 + l == z
  {
    var j, k := x % 4 * 16 + y / 16, y % 16 * 4 + z / 64;
    assert j / 16 == x % 4 && j % 16 == y / 16;
    assert k / 4 == y % 16 && k % 4 == z / 64;
  }

  lemma SymbolsOf(a: Byte, b: Byte, c: Byte)
    ensures |EncodeThree(a, b, c)| == 4
    ensures var g := EncodeThree(a, b, c);
      && IsSymbol(g[0]) && IsSymbol(g[1]) && IsSymbol(g[2]) && IsSymbol(g[3])
      && DecodeFour(ValueOf(g[0]), ValueOf(g[1]), ValueOf(g[2]), ValueOf(g[3])) == [a, b, c]
      && (c == 0 ==> ValueOf(g[3]) == 0)
      && (b == 0 && c == 0 ==> ValueOf(g[2]) == 0)
  {
    hide Symbol, IsSymbol, ValueOf;
    Regrouped(a, b, c);
    SymbolIsASymbol(a / 4);
    SymbolIsASymbol(a % 4 * 16 + b / 16);
    SymbolIsASymbol(b % 16 * 4 + c / 64);
    SymbolIsASymbol(c % 64);
  }

  lemma PaddingIsNoSymbol()
    ensures !IsSymbol('=')
  {
  }

  lemma DecodeOfThree(a: Byte, b: Byte, c: Byte)
    ensures |EncodeThree(a, b, c)| == 4
    ensures DecodeLast(EncodeThree(a, b, c)) == Some([a, b, c])
  {
    hide Symbol, IsSymbol, ValueOf, EncodeThree, DecodeFour;
    SymbolsOf(a, b, c);
  }

  lemma DecodeOfTwo(a: Byte, b: Byte)
    ensures |EncodeTwo(a, b)| == 4
    ensures DecodeLast(EncodeTwo(a, b)) == Some([a, b])
  {
    hide Symbol, IsSymbol, ValueOf, EncodeThree, DecodeFour;
    SymbolsOf(a, b, 0);
    PaddingIsNoSymbol();
    assert [a, b, 0][..2] == [a, b];
  }

  lemma DecodeOfOne(a: Byte)
    ensures |EncodeOne(a)| == 4
    ensures DecodeLast(EncodeOne(a)) == Some([a])
  {
    hide Symbol, IsSymbol, ValueOf, EncodeThree, DecodeFour;
    SymbolsOf(a, 0, 0);
    PaddingIsNoSymbol();
    assert [a, 0, 0][..1] == [a];
  }

  lemma DecodeOfFour(g: string)
    requires |g| == 4
    ensures Decode(g) == DecodeLast(g)
  {
  }

  lemma DecodeOfConcat(first: string, rest: string)
    requires |first| == 4
    requires DecodeLast(first).Some? && |DecodeLast(first).value| == 3 && Decode(rest).Some?
    ensures Decode(first + rest) == Some(DecodeLast(first).value + Decode(rest).value)
  {
    hide DecodeLast;
    if rest == "" {
      assert first + rest == first;
      assert DecodeLast(first).value + [] == DecodeLast(first).value;
    } else {
      assert (first + rest)[..4] == first && (first + rest)[4..] == rest;
    }
  }

  /** The encoder and the decoder are inverse: what is below is about base64 and nothing weaker. */
  lemma {:induction false} DecodeOfEncode(bytes: seq<Byte>)
    ensures Decode(Encode(bytes)) == Some(bytes)
  {
    hide EncodeThree, EncodeOne, EncodeTwo, DecodeLast;
    if |bytes| == 1 {
      assert bytes == [bytes[0]];
      DecodeOfOne(bytes[0]);
      DecodeOfFour(EncodeOne(bytes[0]));
    } else if |bytes| == 2 {
      assert bytes == [bytes[0], bytes[1]];
      DecodeOfTwo(bytes[0], bytes[1]);
      DecodeOfFour(EncodeTwo(bytes[0], bytes[1]));
    } else if |bytes| > 2 {
      var first, rest := EncodeThree(bytes[0], bytes[1], bytes[2]), Encode(bytes[3..]);
      DecodeOfThree(bytes[0], bytes[1], bytes[2]);
      DecodeOfEncode(bytes[3..]);
      assert [bytes[0], bytes[1], bytes[2]] + bytes[3..] == bytes;
      DecodeOfConcat(first, rest);
    }
  }

  // ----- the length, without decoding -----

  /** `base64.replace(/[\n\r\s]/g, '')` */
  function WithoutSpace(s: string): string {
    if s == "" then "" else (if IsSpace(s[0]) then "" else [s[0]]) + WithoutSpace(s[1..])
  }

  /** `[A-Za-z0-9+/=]` */
  predicate InAlphabet(c: char) {
    IsSymbol(c) || c == '='
  }

  function Padding(clean: string): nat {
    if |clean| >= 2 && clean[|clean| - 2..] == "==" then 2
    else if |clean| >= 1 && clean[|clean| - 1] == '=' then 1
    else 0
  }

  function CleanLength(clean: string): int {
    if |clean| == 0 || |clean| % 4 != 0 || (exists i :: 0 <= i < |clean| && !InAlphabet(clean[i])) then 0
    else |clean| / 4 * 3 - Padding(clean)
  }

  function DecodedByteLength(base64: string): int {
    CleanLength(WithoutSpace(base64))
  }

  lemma {:induction false} WithoutSpaceConcat(a: string, b: string)
    ensures WithoutSpace(a + b) == WithoutSpace(a) + WithoutSpace(b)
  {
    if a == "" {
      assert a + b == b;
    } else {
      assert (a + b)[1..] == a[1..] + b;
      WithoutSpaceConcat(a[1..], b);
    }
  }

  /** White space may be inserted anywhere. */
  lemma InsertedSpaceIsDropped(a: string, space: string, b: string)
    requires AllSpace(space)
    ensures WithoutSpace(a + space + b) == WithoutSpace(a + b)
  {
    WithoutSpaceConcat(a + space, b);
    WithoutSpaceConcat(a, space);
    WithoutSpaceConcat(a, b);
    OnlySpace(space);
  }

  lemma {:induction false} OnlySpace(space: string)
    requires AllSpace(space)
    ensures WithoutSpace(space) == ""
  {
    if space != "" {
      OnlySpace(space[1..]);
    }
  }

  /** Text without white space is its own clean form, so encoded bytes are measured as they are. */
  lemma {:induction false} CleanIsUnchanged(s: string)
    requires forall i :: 0 <= i < |s| ==> !IsSpace(s[i])
    ensures WithoutSpace(s) == s
  {
    if s != "" {
      CleanIsUnchanged(s[1..]);
    }
  }

  /** The first group that is not the last is all symbols: it carries three bytes. */
  lemma FirstGroup(text: string)
    requires |text| > 4 && Decode(text).Some?
    ensures IsSymbol(text[0]) && IsSymbol(text[1]) && IsSymbol(text[2]) && IsSymbol(text[3])
    ensures Decode(text[4..]).Some? && |Decode(text).value| == 3 + |Decode(text[4..]).value|
  {
    var g := text[..4];
    assert g[0] == text[0] && g[1] == text[1] && g[2] == text[2] && g[3] == text[3];
  }

  lemma PaddingOfRest(text: string)
    requires |text| >= 8
    ensures Padding(text) == Padding(text[4..])
  {
    var rest := text[4..];
    assert rest[|rest| - 2..] == text[|text| - 2..];
  }

  /** Main: whatever decodes is measured exactly. */
  lemma {:induction false} LengthOfDecodable(clean: string)
    requires Decode(clean).Some?
    ensures |clean| % 4 == 0
    ensures forall i :: 0 <= i < |clean| ==> InAlphabet(clean[i])
    ensures CleanLength(clean) == |Decode(clean).value|
  {
    if |clean| > 4 {
      var rest := clean[4..];
      FirstGroup(clean);
      LengthOfDecodable(rest);
      PaddingOfRest(clean);
      forall i | 0 <= i < |clean| ensures InAlphabet(clean[i]) {
        assert i >= 4 ==> clean[i] == rest[i - 4];
      }
      assert |clean| / 4 == 1 + |rest| / 4;
    } else if |clean| == 4 {
      LengthOfLast(clean);
    }
  }

  lemma LengthOfLast(g: string)
    requires |g| == 4 && DecodeLast(g).Some?
    ensures CleanLength(g) == |DecodeLast(g).value|
    ensures forall i :: 0 <= i < 4 ==> InAlphabet(g[i])
  {
    assert g[2..] == [g[2], g[3]];
  }

  /** Main: for every byte sequence, however its encoding is wrapped, the length is the number of bytes. */
  lemma LengthOfEncoding(bytes: seq<Byte>, text: string)
    requires WithoutSpace(text) == Encode(bytes)
    ensures DecodedByteLength(text) == |bytes|
  {
    DecodeOfEncode(bytes);
    LengthOfDecodable(Encode(bytes));
  }

  // ----- what the length also accepts -----

  /** No `=` apart from the padding that is counted. */
  predicate PaddedAtEnd(clean: string) {
    forall i :: 0 <= i < |clean| - Padding(clean) ==> clean[i] != '='
  }

  /** A non-zero length is no promise of base64: four padding signs count as one byte. */
  lemma PaddingAloneHasALength()
    ensures DecodedByteLength("====") == 1 && Decode("====") == None
  {
    CleanIsUnchanged("====");
  }

  lemma LastDecodes(g: string)
    requires |g| == 4 && forall i :: 0 <= i < 4 ==> InAlphabet(g[i])
    ensures Decode(g).Some? <==> PaddedAtEnd(g)
  {
    assert g[2..] == [g[2], g[3]];
  }

  predicate FourSymbols(clean: string)
    requires |clean| >= 4
  {
    IsSymbol(clean[0]) && IsSymbol(clean[1]) && IsSymbol(clean[2]) && IsSymbol(clean[3])
  }

  lemma DecodesByGroups(clean: string)
    requires |clean| >= 8
    ensures Decode(clean).Some? <==> FourSymbols(clean) && Decode(clean[4..]).Some?
  {
    var g := clean[..4];
    assert g[0] == clean[0] && g[1] == clean[1] && g[2] == clean[2] && g[3] == clean[3];
  }

  lemma PaddedByGroups(clean: string)
    requires |clean| >= 8 && forall i :: 0 <= i < 4 ==> InAlphabet(clean[i])
    ensures PaddedAtEnd(clean) <==> FourSymbols(clean) && PaddedAtEnd(clean[4..])
  {
    PaddingOfRest(clean);
    PaddingIsNoSymbol();
    hide IsSymbol, Padding;
    var rest := clean[4..];
    assert forall i :: 4 <= i < |clean| ==> clean[i] == rest[i - 4];
    assert forall i :: 0 <= i < |rest| ==> rest[i] == clean[i + 4];
    PaddingAtMostTwo(rest);
  }

  lemma PaddingAtMostTwo(clean: string)
    ensures Padding(clean) <= 2
  {
  }

  lemma MeasuredByGroups(clean: string)
    requires CleanLength(clean) != 0
    ensures |clean| >= 4 && |clean| % 4 == 0
    ensures forall i :: 0 <= i < |clean| ==> InAlphabet(clean[i])
    ensures |clean| >= 8 ==> CleanLength(clean[4..]) != 0
  {
    if |clean| >= 8 {
      var rest := clean[4..];
      assert forall i :: 0 <= i < |rest| ==> rest[i] == clean[i + 4];
      assert |rest| / 4 * 3 >= 3;
    }
  }

  /** Exactly which measured texts are base64: those whose padding is all at the end. */
  lemma {:induction false} MeasuredDecodesIffPaddedAtEnd(clean: string)
    requires CleanLength(clean) != 0
    ensures Decode(clean).Some? <==> PaddedAtEnd(clean)
    decreases |clean|
  {
    hide CleanLength, PaddedAtEnd, Decode, InAlphabet;
    MeasuredByGroups(clean);
    if |clean| == 4 {
      LastDecodes(clean);
    } else {
      DecodesByGroups(clean);
      PaddedByGroups(clean);
      MeasuredDecodesIffPaddedAtEnd(clean[4..]);
    }
  }

  /** The test vectors of section 10 of RFC 4648. */
  lemma TestVectors()
    ensures Encode([]) == "" && Encode([102]) == "Zg==" && Encode([102, 111]) == "Zm8="
    ensures Encode([102, 111, 111] + []) == "Zm9v"
    ensures Encode([102, 111, 111] + [98]) == "Zm9vYg=="
    ensures Encode([102, 111, 111] + [98, 97]) == "Zm9vYmE="
    ensures Encode([102, 111, 111] + ([98, 97, 114] + [])) == "Zm9vYmFy"
  {
    hide Encode, EncodeThree;
    ThreeOfThem();
    EncodeMore(102, 111, 111, []);
    EncodeMore(102, 111, 111, [98]);
    EncodeMore(102, 111, 111, [98, 97]);
    EncodeMore(102, 111, 111, [98, 97, 114] + []);
    EncodeMore(98, 97, 114, []);
  }

  lemma ThreeOfThem()
    ensures EncodeThree(102, 111, 111) == "Zm9v" && EncodeThree(98, 97, 114) == "YmFy"
    ensures Encode([]) == "" && Encode([102]) == "Zg==" && Encode([102, 111]) == "Zm8="
    ensures Encode([98]) == "Yg==" && Encode([98, 97]) == "YmE="
  {
  }

  lemma EncodeMore(a: Byte, b: Byte, c: Byte, rest: seq<Byte>)
    ensures Encode([a, b, c] + rest) == EncodeThree(a, b, c) + Encode(rest)
  {
    assert ([a, b, c] + rest)[3..] == rest;
  }
}
