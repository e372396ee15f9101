/**
 * The first workflow demo's `ReverseTextExecutor`: it reports the text it
 * is about to process as a custom event and returns the text reversed.
 * A .NET string is a sequence of UTF-16 code units and `Reverse` works on
 * those units, so the model does too.
 */
module ReverseText {
  import opened Text

  /** A UTF-16 code unit, the element of a .NET string. */
  newtype CodeUnit = n: int | 0 <= n < 0x10000

  /** A .NET string. */
  type NetString = seq<CodeUnit>

  predicate IsHighSurrogate(u: CodeUnit) { 0xD800 <= u <= 0xDBFF }
  predicate IsLowSurrogate(u: CodeUnit) { 0xDC00 <= u <= 0xDFFF }

  /** The UTF-16 encoding of one Unicode scalar value. */
  function EncodeChar(c: char): (r: NetString)
    ensures 1 <= |r| <= 2
    ensures |r| == 1 <==> c as int < 0x10000
    ensures |r| == 1 ==> !IsHighSurrogate(r[0]) && !IsLowSurrogate(r[0])
    ensures |r| == 2 ==> IsHighSurrogate(r[0]) && IsLowSurrogate(r[1])
  {
    var n := c as int;
    if n < 0x10000 then [n as CodeUnit]
    else
      var m := n - 0x10000;
      var hi, lo := 0xD800 + m / 0x400, 0xDC00 + m % 0x400;
      assert hi < 0xDC00 && lo < 0xE000;
      [hi as CodeUnit, lo as CodeUnit]
  }

  /** The UTF-16 form of a Dafny string (a sequence of scalar values). */
  function Utf16(s: string): NetString {
    if s == [] then [] else EncodeChar(s[0]) + Utf16(s[1..])
  }

  /** The encoding has as many units as the .NET length counts. */
  lemma {:induction false} Utf16HasLengthUnits(s: string)
    ensures |Utf16(s)| == Utf16Length(s)
  {
    if s != [] {
      Utf16HasLengthUnits(s[1..]);
    }
  }

  /** No encoded text begins with a low surrogate. */
  lemma Utf16NeverStartsLow(s: string)
    ensures Utf16(s) == [] || !IsLowSurrogate(Utf16(s)[0])
  {
  }

  /** Reversal of any sequence. */
  function Reverse<T>(s: seq<T>): (r: seq<T>)
    ensures |r| == |s|
    ensures forall i :: 0 <= i < |s| ==> r[i] == s[|s| - 1 - i]
  {
    if s == [] then [] else Reverse(s[1..]) + [s[0]]
  }

  /** Reversing twice gives the text back. */
  lemma ReverseInvolution<T>(s: seq<T>)
    ensures Reverse(Reverse(s)) == s
  {
  }

  /** `CustomEvent` carrying the text being processed. */
  datatype CustomEvent = CustomEvent(message: NetString)

  const EventPrefix: string := "处理反转文本: "

  /** `HandleAsync`: one event naming the input, then the input reversed unit by unit. */
  function Handle(input: NetString): (r: (CustomEvent, NetString))
    ensures r.0.message == Utf16(EventPrefix) + input
    ensures r.1 == Reverse(input)
  {
    (CustomEvent(Utf16(EventPrefix) + input), Reverse(input))
  }

  /** A BMP text encodes one unit per character. */
  lemma {:induction false} Utf16OfBmp(s: string)
    requires IsBmp(s)
    ensures |Utf16(s)| == |s|
    ensures forall i :: 0 <= i < |s| ==> Utf16(s)[i] == EncodeChar(s[i])[0]
  {
    if s != [] {
      Utf16OfBmp(s[1..]);
      assert forall i :: 1 <= i < |s| ==> s[1..][i - 1] == s[i];
    }
  }

  /** On BMP text, reversing the units is reversing the characters. */
  lemma ReverseBmp(s: string)
    requires IsBmp(s)
    ensures Handle(Utf16(s)).1 == Utf16(Reverse(s))
  {
    Utf16OfBmp(s);
    var rs := Reverse(s);
    assert IsBmp(rs);
    Utf16OfBmp(rs);
  }

  /**
   * Outside the BMP, reversing units swaps a surrogate pair, so the result
   * starts with a low surrogate and is the UTF-16 form of no text at all.
   */
  lemma ReverseSplitsSurrogatePair(c: char)
    requires c as int >= 0x10000
    ensures IsLowSurrogate(Handle(Utf16([c])).1[0])
    ensures forall s: string :: Handle(Utf16([c])).1 != Utf16(s)
  {
    assert Utf16([c]) == EncodeChar(c);
    forall s: string ensures Handle(Utf16([c])).1 != Utf16(s) {
      Utf16NeverStartsLow(s);
    }
  }

  /** Reversal by characters: the text's scalar values in reverse order, re-encoded. */
  function HandleByScalar(input: string): (r: (CustomEvent, NetString))
    ensures r.0 == Handle(Utf16(input)).0
    ensures r.1 == Utf16(Reverse(input))
  {
    (CustomEvent(Utf16(EventPrefix) + Utf16(input)), Utf16(Reverse(input)))
  }

  /** Reversal by characters always yields well-formed text, undoes itself, and agrees with the executor on BMP text. */
  lemma HandleByScalarCorrect(input: string)
    ensures exists s: string :: HandleByScalar(input).1 == Utf16(s)
    ensures IsBmp(input) ==> HandleByScalar(input).1 == Handle(Utf16(input)).1
    ensures HandleByScalar(Reverse(input)).1 == Utf16(input)
  {
    ReverseInvolution(input);
    if IsBmp(input) {
      ReverseBmp(input);
    }
  }
}
