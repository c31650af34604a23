/** Standard padded base64 (section 4 of RFC 4648) over bytes, with the guest
    agent client's own shifts. */
module Base64 {
  import opened Arithmetic
  import opened Wrappers

  type Byte = bv8

  const PAD: Byte := 61

  /** Byte `v` of the alphabet. */
  function Symbol(v: Byte): Byte
    requires v < 64
  {
    if v < 26 then v + 65 else if v < 52 then v - 26 + 97 else if v < 62 then v - 52 + 48 else if v == 62 then 43
        else 47
  }

  function Value(c: Byte): Option<Byte> {
    if 65 <= c <= 90 then Some(c - 65)
    else if 97 <= c <= 122 then Some(c - 97 + 26)
    else if 48 <= c <= 57 then Some(c - 48 + 52)
    else if c == 43 then Some(62)
    else if c == 47 then Some(63)
    else None
  }

  lemma SymbolsAndValues(v: Byte, c: Byte)
    ensures v < 64 ==> Value(Symbol(v)) == Some(v) && Symbol(v) != PAD
    ensures Value(c).Some? ==> Value(c).value < 64 && Symbol(Value(c).value) == c
    ensures Value(PAD).None?
  {
  }

  // ----- one group of up to three bytes -----

  function Word(b0: Byte, b1: Byte, b2: Byte): bv32 { (b0 as bv32 << 16) | (b1 as bv32 << 8) | (b2 as bv32) }

  function Sextet(word: bv32, index: nat): (v: Byte)
    requires index < 4
    ensures v < 64
  {
    // the shift is 18 - 6 * index bits
    var shifted := match index { case 0 => word >> 18 case 1 => word >> 12 case 2 => word >> 6 case _ => word };
    (shifted & 0x3f) as Byte
  }

  function At(chunk: seq<Byte>, i: nat): Byte { if i < |chunk| then chunk[i] else 0 }

  function WordOf(chunk: seq<Byte>): bv32 { Word(At(chunk, 0), At(chunk, 1), At(chunk, 2)) }

  /** Symbol `index` of the group for `chunk`: as many sextets as its bytes reach, then padding. */
  function GroupAt(chunk: seq<Byte>, index: nat): Byte
    requires index < 4
  {
    if index <= |chunk| then Symbol(Sextet(WordOf(chunk), index)) else PAD
  }

  function Group(chunk: seq<Byte>): seq<Byte> {
    [GroupAt(chunk, 0), GroupAt(chunk, 1), GroupAt(chunk, 2), GroupAt(chunk, 3)]
  }

  function Encode(input: seq<Byte>): seq<Byte> {
    if input == [] then [] else
      var n := Min(|input|, 3);
      Group(input[..n]) + Encode(input[n..])
  }

  method EncodeGroup(chunk: seq<Byte>, before: seq<Byte>) returns (output: seq<Byte>)
    ensures output == before + Group(chunk)
  {
    output := before;
    for index := 0 to 4
      invariant output == before + Group(chunk)[..index]
    {
      assert index == 0 || index == 1 || index == 2 || index == 3;
      assert Group(chunk)[..index + 1] == Group(chunk)[..index] + [GroupAt(chunk, index)];
      output := output + [GroupAt(chunk, index)];
    }
  }

  lemma EncodeStep(input: seq<Byte>, i: nat, n: nat, output: seq<Byte>)
    requires i < |input| && n == Min(|input| - i, 3)
    ensures output + Encode(input[i..]) == output + Group(input[i..i + n]) + Encode(input[i + n..])
  {
    var rest := input[i..];
    assert rest[..n] == input[i..i + n] && rest[n..] == input[i + n..];
    assert Encode(rest) == Group(rest[..n]) + Encode(rest[n..]);
  }

  method EncodeBase64(input: seq<Byte>) returns (output: seq<Byte>)
    ensures output == Encode(input)
  {
    output := [];
    var i := 0;
    assert input[0..] == input;
    while i < |input|
      invariant 0 <= i <= |input|
      invariant output + Encode(input[i..]) == Encode(input)
    {
      var n := Min(|input| - i, 3);
      EncodeStep(input, i, n, output);
      output := EncodeGroup(input[i..i + n], output);
      i := i + n;
    }
    assert input[i..] == [];
  }

  // ----- decoding -----

  function Padding(chunk: seq<Byte>): nat
    requires |chunk| == 4
  {
    if chunk[3] != PAD then 0 else if chunk[2] != PAD then 1 else 2
  }

  function ValueOrZero(c: Byte): Option<Byte> { if c == PAD then Some(0) else Value(c) }

  /** The bytes of one group, if it is well formed. */
  function Ungroup(chunk: seq<Byte>, last: bool): Option<seq<Byte>>
    requires |chunk| == 4
  {
    var padding := Padding(chunk);
    if padding > 0 && !last then None
    else
      var a, b, c, d := Value(chunk[0]), Value(chunk[1]), ValueOrZero(chunk[2]), ValueOrZero(chunk[3]);
      if a.None? || b.None? || c.None? || d.None? then None
      else if chunk[0] == PAD || chunk[1] == PAD || (chunk[2] == PAD && chunk[3] != PAD) then None
      else
        var bytes := [(a.value << 2) | (b.value >> 4), (b.value << 4) | (c.value >> 2), (c.value << 6) | d.value];
        Some(bytes[..3 - padding])
  }

  function Decode(text: seq<Byte>): Option<seq<Byte>> {
    if |text| % 4 != 0 then None else DecodeGroups(text)
  }

  function DecodeGroups(text: seq<Byte>): Option<seq<Byte>>
    requires |text| % 4 == 0
  {
    if text == [] then Some([])
    else
      var first, rest := Ungroup(text[..4], |text| == 4), DecodeGroups(text[4..]);
      if first.None? || rest.None? then None else Some(first.value + rest.value)
  }

  /** What has been decoded, joined with what is still to come. */
  function Joined(bytes: seq<Byte>, rest: Option<seq<Byte>>): Option<seq<Byte>> {
    if rest.None? then None else Some(bytes + rest.value)
  }

  lemma DecodeStep(text: seq<Byte>, i: nat, bytes: seq<Byte>)
    requires i < |text| && i % 4 == 0 && |text| % 4 == 0
    ensures
      var group := Ungroup(text[i..i + 4], i + 4 == |text|);
      Joined(bytes, DecodeGroups(text[i..])) ==
      if group.None? then None else Joined(bytes + group.value, DecodeGroups(text[i + 4..]))
  {
    var rest := text[i..];
    assert rest[..4] == text[i..i + 4] && rest[4..] == text[i + 4..];
    var group, tail := Ungroup(text[i..i + 4], i + 4 == |text|), DecodeGroups(text[i + 4..]);
    if group.Some? && tail.Some? {
      assert bytes + (group.value + tail.value) == (bytes + group.value) + tail.value;
    }
  }

  method DecodeBase64(text: seq<Byte>) returns (output: Option<seq<Byte>>)
    ensures output == Decode(text)
  {
    if |text| % 4 != 0 { return None; }
    var bytes, i: nat := [], 0;
    assert text[0..] == text;
    assert DecodeGroups(text).Some? ==> [] + DecodeGroups(text).value == DecodeGroups(text).value;
    while i < |text|
      invariant i <= |text| && i % 4 == 0
      invariant DecodeGroups(text) == Joined(bytes, DecodeGroups(text[i..]))
    {
      DecodeStep(text, i, bytes);
      MultiplesApart(i, |text|, 4);
      var group := Ungroup(text[i..i + 4], i + 4 == |text|);
      if group.None? { return None; }
      bytes, i := bytes + group.value, i + 4;
    }
    assert text[i..] == [] && bytes + [] == bytes;
    return Some(bytes);
  }

  // ----- round trip -----

  /** The decoder's byte shifts, which drop the high bits, undo the sextets. */
  lemma SextetsRejoin(b0: Byte, b1: Byte, b2: Byte)
    ensures
      var w := Word(b0, b1, b2);
      var a, b, c, d := Sextet(w, 0), Sextet(w, 1), Sextet(w, 2), Sextet(w, 3);
      && (a << 2) | (b >> 4) == b0 && (b << 4) | (c >> 2) == b1 && (c << 6) | d == b2
      && (b2 == 0 ==> d == 0) && (b1 == 0 && b2 == 0 ==> c == 0)
  {
  }

  lemma GroupRoundTrips(chunk: seq<Byte>, last: bool)
    requires 1 <= |chunk| <= 3 && (|chunk| == 3 || last)
    ensures Ungroup(Group(chunk), last) == Some(chunk)
  {
    var w := WordOf(chunk);
    SextetsRejoin(At(chunk, 0), At(chunk, 1), At(chunk, 2));
    RejoinedGroup(chunk, last, Sextet(w, 0), Sextet(w, 1), Sextet(w, 2), Sextet(w, 3));
  }

  lemma RejoinedGroup(chunk: seq<Byte>, last: bool, a: Byte, b: Byte, c: Byte, d: Byte)
    requires 1 <= |chunk| <= 3 && (|chunk| == 3 || last) && a < 64 && b < 64 && c < 64 && d < 64
    requires
      var w := WordOf(chunk);
      Sextet(w, 0) == a && Sextet(w, 1) == b && Sextet(w, 2) == c && Sextet(w, 3) == d
    requires (|chunk| < 3 ==> d == 0) && (|chunk| < 2 ==> c == 0)
    requires (a << 2) | (b >> 4) == At(chunk, 0) && (b << 4) | (c >> 2) == At(chunk, 1) && (c << 6) | d == At(chunk, 2)
    ensures Ungroup(Group(chunk), last) == Some(chunk)
  {
    SymbolsDecode(chunk, a, b, c, d);
    UngroupOf(Group(chunk), last, a, b, c, d, |chunk|);
    PrefixIs(chunk, [(a << 2) | (b >> 4), (b << 4) | (c >> 2), (c << 6) | d]);
  }

  lemma PrefixIs(chunk: seq<Byte>, padded: seq<Byte>)
    requires |chunk| <= 3 && padded == [At(chunk, 0), At(chunk, 1), At(chunk, 2)]
    ensures padded[..|chunk|] == chunk
  {
  }

  lemma SymbolsDecode(chunk: seq<Byte>, a: Byte, b: Byte, c: Byte, d: Byte)
    requires 1 <= |chunk| <= 3 && a < 64 && b < 64 && c < 64 && d < 64
    requires
      var w := WordOf(chunk);
      Sextet(w, 0) == a && Sextet(w, 1) == b && Sextet(w, 2) == c && Sextet(w, 3) == d
    requires (|chunk| < 3 ==> d == 0) && (|chunk| < 2 ==> c == 0)
    ensures
      var group := Group(chunk);
      && Value(group[0]) == Some(a) && Value(group[1]) == Some(b)
      && ValueOrZero(group[2]) == Some(c) && ValueOrZero(group[3]) == Some(d)
      && group[0] != PAD && group[1] != PAD && (group[2] == PAD <==> |chunk| < 2) && (group[3] == PAD <==> |chunk| < 3)
  {
    SymbolsAndValues(a, PAD);
    SymbolsAndValues(b, PAD);
    SymbolsAndValues(c, PAD);
    SymbolsAndValues(d, PAD);
  }

  lemma UngroupOf(group: seq<Byte>, last: bool, a: Byte, b: Byte, c: Byte, d: Byte, n: nat)
    requires |group| == 4 && 1 <= n <= 3 && (n == 3 || last)
    requires Value(group[0]) == Some(a) && Value(group[1]) == Some(b)
    requires ValueOrZero(group[2]) == Some(c) && ValueOrZero(group[3]) == Some(d)
    requires group[0] != PAD && group[1] != PAD && (group[2] == PAD <==> n < 2) && (group[3] == PAD <==> n < 3)
    ensures Ungroup(group, last) == Some([(a << 2) | (b >> 4), (b << 4) | (c >> 2), (c << 6) | d][..n])
    ensures n == 1 ==> Ungroup(group, last) == Some([(a << 2) | (b >> 4)])
  {
    var bytes := [(a << 2) | (b >> 4), (b << 4) | (c >> 2), (c << 6) | d];
    assert bytes[..1] == [bytes[0]];
  }

  lemma {:induction false} EncodingLength(input: seq<Byte>)
    ensures |Encode(input)| % 4 == 0 && (input == [] <==> Encode(input) == [])
    ensures |Encode(input)| == (|input| + 2) / 3 * 4
  {
    if input != [] {
      EncodingLength(input[Min(|input|, 3)..]);
    }
  }

  /** Decoding an encoding gives back every byte string. */
  lemma {:induction false} DecodeUndoesEncode(input: seq<Byte>)
    ensures Decode(Encode(input)) == Some(input)
  {
    EncodingLength(input);
    if input != [] {
      var n := Min(|input|, 3);
      var rest := input[n..];
      DecodeUndoesEncode(rest);
      EncodingLength(rest);
      GroupRoundTrips(input[..n], rest == []);
      assert Encode(input)[..4] == Group(input[..n]) && Encode(input)[4..] == Encode(rest);
      assert input == input[..n] + rest;
    }
  }

  // ----- which texts are accepted -----

  predicate AllSymbols(text: seq<Byte>) { forall i :: 0 <= i < |text| ==> Value(text[i]).Some? }

  /** Symbols, then `padding` pad bytes. */
  predicate EndsPadded(text: seq<Byte>, padding: nat) {
    padding <= |text| && AllSymbols(text[..|text| - padding]) && forall i :: |text| - padding <= i < |text| ==>
        text[i] == PAD
  }

  lemma UngroupAccepts(chunk: seq<Byte>, last: bool)
    requires |chunk| == 4
    ensures Ungroup(chunk, last).Some? <==>
            EndsPadded(chunk, 0) || (last && (EndsPadded(chunk, 1) || EndsPadded(chunk, 2)))
  {
    SymbolsAndValues(0, PAD);
    assert EndsPadded(chunk, 0) <==>
           Value(chunk[0]).Some? && Value(chunk[1]).Some? && Value(chunk[2]).Some? && Value(chunk[3]).Some?;
    assert EndsPadded(chunk, 1) <==>
           Value(chunk[0]).Some? && Value(chunk[1]).Some? && Value(chunk[2]).Some? && chunk[3] == PAD;
    assert EndsPadded(chunk, 2) <==>
           Value(chunk[0]).Some? && Value(chunk[1]).Some? && chunk[2] == PAD && chunk[3] == PAD;
  }

  /** A text is accepted exactly when its length is a multiple of four and it is
      symbols only but for at most two pad bytes at its very end. */
  lemma AcceptedExactlyWhenPaddedAtEnd(text: seq<Byte>)
    ensures Decode(text).Some? <==>
            |text| % 4 == 0 && (EndsPadded(text, 0) || EndsPadded(text, 1) || EndsPadded(text, 2))
  {
    if |text| % 4 == 0 {
      GroupsAccepted(text);
    }
  }

  lemma {:induction false} GroupsAccepted(text: seq<Byte>)
    requires |text| % 4 == 0
    ensures DecodeGroups(text).Some? <==> EndsPadded(text, 0) || EndsPadded(text, 1) || EndsPadded(text, 2)
  {
    if text != [] {
      var first, rest := text[..4], text[4..];
      UngroupAccepts(first, |text| == 4);
      if |text| == 4 {
        assert first == text && DecodeGroups(rest) == Some([]);
      } else {
        GroupsAccepted(rest);
        PaddedTail(text, 0);
        PaddedTail(text, 1);
        PaddedTail(text, 2);
      }
    }
  }

  lemma PaddedTail(text: seq<Byte>, padding: nat)
    requires 4 + padding <= |text|
    ensures EndsPadded(text, padding) <==> EndsPadded(text[..4], 0) && EndsPadded(text[4..], padding)
  {
    var body := text[..|text| - padding];
    assert text[..4] == body[..4] && text[4..][..|text| - 4 - padding] == body[4..];
    assert body == body[..4] + body[4..];
    assert forall i :: |text| - padding <= i < |text| ==> text[i] == text[4..][i - 4];
  }

  // ----- which texts are canonical -----

  /** The bits that padding leaves over are zero. */
  predicate LeftoverBitsZero(chunk: seq<Byte>)
    requires |chunk| == 4
  {
    match Padding(chunk)
    case 0 => true
    case 1 => Value(chunk[2]).Some? && Value(chunk[2]).value & 0x03 == 0
    case _ => Value(chunk[1]).Some? && Value(chunk[1]).value & 0x0f == 0
  }

  lemma SextetsOfThree(a: Byte, b: Byte, c: Byte, d: Byte)
    requires a < 64 && b < 64 && c < 64 && d < 64
    ensures
      var w := Word((a << 2) | (b >> 4), (b << 4) | (c >> 2), (c << 6) | d);
      Sextet(w, 0) == a && Sextet(w, 1) == b && Sextet(w, 2) == c && Sextet(w, 3) == d
  {
  }

  lemma SextetsOfTwo(a: Byte, b: Byte, c: Byte)
    requires a < 64 && b < 64 && c < 64
    ensures
      var w := Word((a << 2) | (b >> 4), (b << 4) | (c >> 2), 0);
      Sextet(w, 0) == a && Sextet(w, 1) == b && (Sextet(w, 2) == c <==> c & 0x03 == 0)
  {
  }

  lemma SextetsOfOne(a: Byte, b: Byte)
    requires a < 64 && b < 64
    ensures
      var w := Word((a << 2) | (b >> 4), 0, 0);
      Sextet(w, 0) == a && (Sextet(w, 1) == b <==> b & 0x0f == 0)
  {
  }

  lemma GroupIsCanonical(chunk: seq<Byte>, last: bool)
    requires |chunk| == 4 && Ungroup(chunk, last).Some?
    ensures Group(Ungroup(chunk, last).value) == chunk <==> LeftoverBitsZero(chunk)
  {
    var a, b := Value(chunk[0]).value, Value(chunk[1]).value;
    var c, d := ValueOrZero(chunk[2]).value, ValueOrZero(chunk[3]).value;
    UngroupOf(chunk, last, a, b, c, d, 3 - Padding(chunk));
    BytesAreCanonical(chunk, a, b, c, d);
  }

  lemma BytesAreCanonical(chunk: seq<Byte>, a: Byte, b: Byte, c: Byte, d: Byte)
    requires |chunk| == 4 && Value(chunk[0]) == Some(a) && Value(chunk[1]) == Some(b)
    requires Padding(chunk) < 2 ==> Value(chunk[2]) == Some(c)
    requires Padding(chunk) < 1 ==> Value(chunk[3]) == Some(d)
    ensures
      var bytes := [(a << 2) | (b >> 4), (b << 4) | (c >> 2), (c << 6) | d][..3 - Padding(chunk)];
      Group(bytes) == chunk <==> LeftoverBitsZero(chunk)
  {
    var b0, b1, b2 := (a << 2) | (b >> 4), (b << 4) | (c >> 2), (c << 6) | d;
    SymbolMatches(a, chunk[0]);
    SymbolMatches(b, chunk[1]);
    match Padding(chunk)
    case 0 =>
      SymbolMatches(c, chunk[2]);
      SymbolMatches(d, chunk[3]);
      SextetsOfThree(a, b, c, d);
      GroupMatches(chunk, [b0, b1, b2], a, b, c, d);
      assert [b0, b1, b2][..3] == [b0, b1, b2];
    case 1 =>
      SymbolMatches(c, chunk[2]);
      SextetsOfTwo(a, b, c);
      var w := Word(b0, b1, 0);
      GroupMatches(chunk, [b0, b1], a, b, Sextet(w, 2), Sextet(w, 3));
      assert [b0, b1, b2][..2] == [b0, b1];
    case _ =>
      SextetsOfOne(a, b);
      var w := Word(b0, 0, 0);
      GroupMatches(chunk, [b0], a, Sextet(w, 1), Sextet(w, 2), Sextet(w, 3));
      assert [b0, b1, b2][..1] == [b0];
  }

  /** A group is the encoding of its bytes exactly when each sextet is its symbol's value. */
  lemma GroupMatches(chunk: seq<Byte>, bytes: seq<Byte>, s0: Byte, s1: Byte, s2: Byte, s3: Byte)
    requires |chunk| == 4 && |bytes| == 3 - Padding(chunk) && s0 < 64 && s1 < 64 && s2 < 64 && s3 < 64
    requires
      var w := WordOf(bytes);
      s0 == Sextet(w, 0) && s1 == Sextet(w, 1) && s2 == Sextet(w, 2) && s3 == Sextet(w, 3)
    requires Value(chunk[0]).Some? && Value(chunk[1]).Some?
    requires (|bytes| < 2 || Value(chunk[2]).Some?) && (|bytes| < 3 || Value(chunk[3]).Some?)
    ensures Group(bytes) == chunk <==>
            && Value(chunk[0]).value == s0 && Value(chunk[1]).value == s1
            && (2 <= |bytes| ==> Value(chunk[2]).value == s2) && (3 <= |bytes| ==> Value(chunk[3]).value == s3)
  {
    SymbolMatches(s0, chunk[0]);
    SymbolMatches(s1, chunk[1]);
    if 2 <= |bytes| {
      SymbolMatches(s2, chunk[2]);
    }
    if 3 <= |bytes| {
      SymbolMatches(s3, chunk[3]);
    }
  }

  lemma SymbolMatches(v: Byte, c: Byte)
    requires v < 64 && Value(c).Some?
    ensures Symbol(v) == c <==> Value(c).value == v
    ensures Value(c).value < 64
  {
    SymbolsAndValues(v, c);
  }

  /** An accepted text is the encoding of what it decodes to exactly when the bits
      its last group leaves over are zero; the decoder does not ask for that. */
  lemma {:induction false} EncodeUndoesDecodeExactlyWhenCanonical(text: seq<Byte>)
    requires Decode(text).Some?
    ensures Encode(Decode(text).value) == text <==> text == [] || LeftoverBitsZero(text[|text| - 4..])
  {
    if text != [] {
      var first, rest := Ungroup(text[..4], |text| == 4).value, text[4..];
      var bytes := Decode(text).value;
      GroupIsCanonical(text[..4], |text| == 4);
      assert text == text[..4] + rest;
      if rest == [] {
        assert text[..4] == text && text[|text| - 4..] == text;
        assert DecodeGroups(rest) == Some([]) && bytes == first + [] == first;
        assert Encode(bytes) == Group(first) + Encode([]);
      } else {
        EncodeUndoesDecodeExactlyWhenCanonical(rest);
        assert |first| == 3 && bytes[..3] == first && bytes[3..] == DecodeGroups(rest).value;
        assert text[|text| - 4..] == rest[|rest| - 4..];
        assert Encode(bytes) == Group(first) + Encode(bytes[3..]);
        assert Encode(bytes)[4..] == Encode(bytes[3..]);
      }
    }
  }

  /** Two texts, one byte: "QQ==" and "QR==". */
  lemma DecodingIsNotInjective()
    ensures Decode([81, 81, PAD, PAD]) == Decode([81, 82, PAD, PAD]) == Some([65])
  {
    SingleGroup([81, 81, PAD, PAD]);
    SingleGroup([81, 82, PAD, PAD]);
    UngroupOf([81, 81, PAD, PAD], true, 16, 16, 0, 0, 1);
    UngroupOf([81, 82, PAD, PAD], true, 16, 17, 0, 0, 1);
    var sixteen: Byte, seventeen: Byte := 16, 17;
    assert (sixteen << 2) | (sixteen >> 4) == 65 && (sixteen << 2) | (seventeen >> 4) == 65;
  }

  lemma SingleGroup(text: seq<Byte>)
    requires |text| == 4
    ensures Decode(text) == Ungroup(text, true)
  {
    assert text[..4] == text && text[4..] == [];
    assert DecodeGroups([]) == Some([]);
    assert Ungroup(text, true).Some? ==> Ungroup(text, true).value + [] == Ungroup(text, true).value;
  }
}
