// The base64 encoder of src/modernirc.c:18-40, against a decoder written from
// section 4 of RFC 4648.
module Base64 {
  import opened Text

  type Byte = x: int | 0 <= x < 256

  const ALPHABET := "ABCDEFGHIJKLMNOPQRSTUVWXYZ" + "abcdefghijklmnopqrstuvwxyz" + "0123456789+/"

  function Symbol(v: int): char
    requires 0 <= v < 64
  {
    assert |ALPHABET| == 64;
    ALPHABET[v]
  }

  // ---------------------------------------------------- RFC 4648, section 4

  /** Value of an alphabet character, or 64 for any other character. */
  function Value(c: char): (v: int)
    ensures 0 <= v <= 64
  {
    if 'A' <= c <= 'Z' then c as int - 'A' as int
    else if 'a' <= c <= 'z' then c as int - 'a' as int + 26
    else if '0' <= c <= '9' then c as int - '0' as int + 52
    else if c == '+' then 62
    else if c == '/' then 63
    else 64
  }

  /** One quantum. Padding is only possible in the last one. */
  function DecodeQuantum(a: char, b: char, c: char, d: char, last: bool): Option<seq<Byte>> {
    var (i, j, k, l) := (Value(a), Value(b), Value(c), Value(d));
    if i == 64 || j == 64 then None
    else if last && c == '=' && d == '=' then Some([i * 4 + j / 16])
    else if k == 64 then None
    else if last && d == '=' then Some([i * 4 + j / 16, j % 16 * 16 + k / 4])
    else if l == 64 then None
    else Some([i * 4 + j / 16, j % 16 * 16 + k / 4, k % 4 * 64 + l])
  }

  function Decode(s: string): Option<seq<Byte>> {
    if s == "" then Some([])
    else if |s| < 4 then None
    else
      match (DecodeQuantum(s[0], s[1], s[2], s[3], |s| == 4), Decode(s[4..]))
      case (Some(head), Some(tail)) => Some(head + tail)
      case _ => None
  }

  // --------------------------------------------------------- the encoder

  /** The 24-bit group the loop builds from `n` bytes at the front of `src`. */
  function Group(src: seq<Byte>): int
    requires src != []
  {
    var high, middle, low: int := src[0], if |src| > 1 then src[1] else 0, if |src| > 2 then src[2] else 0;
    high * 65536 + middle * 256 + low
  }

  function Quantum(src: seq<Byte>): (s: string)
    requires src != []
    ensures |s| == 4
  {
    var v := Group(src);
    [Symbol(v / 262144 % 64), Symbol(v / 4096 % 64),
     if |src| > 1 then Symbol(v / 64 % 64) else '=', if |src| > 2 then Symbol(v % 64) else '=']
  }

  function Encode(src: seq<Byte>): string {
    if src == [] then ""
    else if |src| <= 3 then Quantum(src)
    else Quantum(src) + Encode(src[3..])
  }

  lemma {:induction false} EncodeLength(src: seq<Byte>)
    ensures |Encode(src)| == 4 * ((|src| + 2) / 3)
  {
    if |src| > 3 {
      EncodeLength(src[3..]);
      assert (|src| - 3 + 2) / 3 == (|src| + 2) / 3 - 1;
    }
  }

  /** Encodes into a buffer. It succeeds exactly when the text and its terminator fit,
      and then leaves the encoding followed by a NUL. */
  method EncodeInto(src: seq<Byte>, dst: array<char>) returns (ok: bool)
    modifies dst
    ensures |Encode(src)| == 4 * ((|src| + 2) / 3)
    ensures ok <==> |Encode(src)| < dst.Length
    ensures ok ==> dst[..|Encode(src)|] == Encode(src) && dst[|Encode(src)|] == '\0'
  {
    hide Encode, Quantum, Group;
    EncodeLength(src);
    EncodeNothing();
    var i, o := 0, 0;
    while i < |src|
      invariant i <= |src| && o <= dst.Length && (i > 0 ==> o < dst.Length)
      invariant dst[..o] + Encode(src[i..]) == Encode(src)
    {
      ghost var rest, done := src[i..], dst[..o];
      var v, remain;
      v, remain, i := NextGroup(src, i);
      QuantumFirst(rest, src[i..]);
      QuantumIs(rest, v);
      Grouped(done, Quantum(rest), Encode(src[i..]));
      if o + 4 >= dst.Length {
        return false;
      }
      Put(dst, o, Symbol(v / 262144 % 64), Symbol(v / 4096 % 64),
          if remain > 1 then Symbol(v / 64 % 64) else '=', if remain > 2 then Symbol(v % 64) else '=');
      o := o + 4;
    }
    assert src[i..] == [] && dst[..o] + "" == dst[..o];
    if o >= dst.Length {
      return false;
    }
    dst[o] := '\0';
    ok := true;
  }

  /** Reads up to three bytes at `at`: the group, how many bytes were left, and the next index. */
  method NextGroup(src: seq<Byte>, at: nat) returns (v: int, remain: nat, i: nat)
    requires at < |src|
    ensures v == Group(src[at..]) && remain == |src| - at
    ensures i <= |src| && src[i..] == if remain <= 3 then [] else src[at..][3..]
  {
    v, i, remain := src[at], at + 1, |src| - at;
    v := v * 65536;
    if remain > 1 {
      var middle: int := src[i];
      v, i := v + middle * 256, i + 1;
    }
    if remain > 2 {
      var low: int := src[i];
      v, i := v + low, i + 1;
    }
  }

  /** The four stores of one loop round. */
  method Put(dst: array<char>, o: nat, a: char, b: char, c: char, d: char)
    requires o + 4 <= dst.Length
    modifies dst
    ensures dst[..o + 4] == old(dst[..o]) + [a, b, c, d]
  {
    dst[o], dst[o + 1], dst[o + 2], dst[o + 3] := a, b, c, d;
  }

  lemma EncodeNothing()
    ensures Encode([]) == ""
  {
  }

  lemma QuantumIs(src: seq<Byte>, v: int)
    requires src != [] && v == Group(src)
    ensures Quantum(src)
         == [Symbol(v / 262144 % 64), Symbol(v / 4096 % 64),
             if |src| > 1 then Symbol(v / 64 % 64) else '=', if |src| > 2 then Symbol(v % 64) else '=']
  {
    hide Group, Symbol;
  }

  lemma Grouped(a: string, b: string, c: string)
    ensures a + (b + c) == a + b + c
  {
  }

  lemma QuantumFirst(src: seq<Byte>, rest: seq<Byte>)
    requires src != [] && rest == if |src| <= 3 then [] else src[3..]
    ensures Encode(src) == Quantum(src) + Encode(rest)
  {
  }

  lemma UpperValue(v: int)
    requires 0 <= v < 26
    ensures Value(Symbol(v)) == v
  {
  }

  lemma LowerValue(v: int)
    requires 26 <= v < 52
    ensures Value(Symbol(v)) == v
  {
  }

  lemma OtherValue(v: int)
    requires 52 <= v < 64
    ensures Value(Symbol(v)) == v
  {
  }

  lemma SymbolValue(v: int)
    requires 0 <= v < 64
    ensures Value(Symbol(v)) == v && Symbol(v) != '='
  {
    if v < 26 {
      UpperValue(v);
    } else if v < 52 {
      LowerValue(v);
    } else {
      OtherValue(v);
    }
  }

  lemma SixBits(high: nat, digit: int, low: int, unit: int)
    requires unit == 4096 || unit == 64
    requires 0 <= digit < 64 && 0 <= low < unit
    ensures (high * 64 * unit + digit * unit + low) / unit % 64 == digit
  {
    assert (high * 64 * unit + digit * unit + low) / unit == high * 64 + digit;
  }

  lemma FirstDigit(a: int, b: int, c: int, v: int)
    requires 0 <= a < 256 && 0 <= b < 256 && 0 <= c < 256 && v == a * 65536 + b * 256 + c
    ensures v / 262144 % 64 == a / 4
  {
  }

  lemma SecondDigit(a: int, b: int, c: int, v: int)
    requires 0 <= a < 256 && 0 <= b < 256 && 0 <= c < 256 && v == a * 65536 + b * 256 + c
    ensures v / 4096 % 64 == a % 4 * 16 + b / 16
  {
    SixBits(a / 4, a % 4 * 16 + b / 16, b % 16 * 256 + c, 4096);
  }

  lemma ThirdDigit(a: int, b: int, c: int, v: int)
    requires 0 <= a < 256 && 0 <= b < 256 && 0 <= c < 256 && v == a * 65536 + b * 256 + c
    ensures v / 64 % 64 == b % 16 * 4 + c / 64
  {
    SixBits(a * 16 + b / 16, b % 16 * 4 + c / 64, c % 64, 64);
  }

  lemma FourthDigit(a: int, b: int, c: int, v: int)
    requires 0 <= a < 256 && 0 <= b < 256 && 0 <= c < 256 && v == a * 65536 + b * 256 + c
    ensures v % 64 == c % 64
  {
  }

  /** Joining the digits again loses nothing. */
  lemma DigitsBack(a: int, b: int, c: int, i: int, j: int, k: int, l: int)
    requires 0 <= a < 256 && 0 <= b < 256 && 0 <= c < 256
    requires i == a / 4 && j == a % 4 * 16 + b / 16 && k == b % 16 * 4 + c / 64 && l == c % 64
    ensures i * 4 + j / 16 == a && j % 16 * 16 + k / 4 == b && k % 4 * 64 + l == c
  {
  }

  /** What four characters with these values decode to; `n` is the number of bytes meant. */
  lemma CharsDecode(p: char, q: char, r: char, s: char, a: Byte, b: Byte, c: Byte, n: nat, last: bool)
    requires 1 <= n <= 3 && (n < 3 ==> last) && (n < 2 ==> b == 0) && (n < 3 ==> c == 0)
    requires Value(p) == a / 4 && Value(q) == a % 4 * 16 + b / 16
    requires if n > 1 then r != '=' && Value(r) == b % 16 * 4 + c / 64 else r == '='
    requires if n > 2 then s != '=' && Value(s) == c % 64 else s == '='
    ensures DecodeQuantum(p, q, r, s, last) == Some([a, b, c][..n])
  {
    DigitsBack(a, b, c, Value(p), Value(q), b % 16 * 4 + c / 64, c % 64);
    assert Value('=') == 64;
    assert [a, b, c][..n] == if n == 1 then [a] else if n == 2 then [a, b] else [a, b, c];
  }

  lemma QuantumRoundTrip(src: seq<Byte>, last: bool)
    requires src != [] && (|src| < 3 ==> last)
    ensures var q := Quantum(src);
            DecodeQuantum(q[0], q[1], q[2], q[3], last) == Some(if |src| <= 3 then src else src[..3])
  {
    var v := Group(src);
    var a, b, c: int := src[0], if |src| > 1 then src[1] else 0, if |src| > 2 then src[2] else 0;
    var n := if |src| < 3 then |src| else 3;
    FirstDigit(a, b, c, v);
    SecondDigit(a, b, c, v);
    ThirdDigit(a, b, c, v);
    FourthDigit(a, b, c, v);
    SymbolValue(v / 262144 % 64);
    SymbolValue(v / 4096 % 64);
    SymbolValue(v / 64 % 64);
    SymbolValue(v % 64);
    var q := Quantum(src);
    CharsDecode(q[0], q[1], q[2], q[3], a, b, c, n, last);
    assert [a, b, c][..n] == src[..n] == if |src| <= 3 then src else src[..3];
  }

  /** Decoding by section 4 of RFC 4648 gives back every input. */
  lemma {:induction false} RoundTrip(src: seq<Byte>)
    ensures Decode(Encode(src)) == Some(src)
  {
    if src != [] {
      var q := Quantum(src);
      QuantumRoundTrip(src, |src| <= 3);
      if |src| <= 3 {
        assert q[4..] == "" && src + [] == src;
      } else {
        var s := Encode(src);
        assert s[4..] == Encode(src[3..]) && s[..4] == q;
        RoundTrip(src[3..]);
        assert src[..3] + src[3..] == src;
      }
    }
  }

  lemma CapitalLetters(v: int)
    requires 0 <= v < 26
    ensures Symbol(v) == (65 + v) as char
  {
  }

  lemma SmallLetters(v: int)
    requires 26 <= v < 52
    ensures Symbol(v) == (97 + (v - 26)) as char
  {
  }

  lemma OtherSymbols(v: int)
    requires 52 <= v < 64
    ensures Symbol(v) == if v < 62 then (48 + (v - 52)) as char else if v == 62 then '+' else '/'
  {
  }

  /** The alphabet of section 4 of RFC 4648: the capital letters, the small ones, the digits, two signs. */
  lemma AlphabetOrder(v: int)
    requires 0 <= v < 64
    ensures v < 26 ==> Symbol(v) == (65 + v) as char
    ensures 26 <= v < 52 ==> Symbol(v) == (97 + (v - 26)) as char
    ensures 52 <= v < 62 ==> Symbol(v) == (48 + (v - 52)) as char
    ensures v == 62 ==> Symbol(v) == '+'
    ensures v == 63 ==> Symbol(v) == '/'
  {
    hide Symbol;
    if v < 26 {
      CapitalLetters(v);
    } else if v < 52 {
      SmallLetters(v);
    } else {
      OtherSymbols(v);
    }
  }

  lemma Letters()
    ensures Symbol(4) == 'E' && Symbol(5) == 'F' && Symbol(24) == 'Y' && Symbol(25) == 'Z'
    ensures Symbol(32) == 'g' && Symbol(38) == 'm' && Symbol(47) == 'v' && Symbol(50) == 'y'
    ensures Symbol(60) == '8' && Symbol(61) == '9'
  {
  }

  lemma QuantaOfFoo()
    ensures Quantum([102]) == [Symbol(25), Symbol(32), '=', '=']
    ensures Quantum([102, 111]) == [Symbol(25), Symbol(38), Symbol(60), '=']
    ensures Quantum([102, 111, 111]) == [Symbol(25), Symbol(38), Symbol(61), Symbol(47)]
  {
    hide Symbol;
  }

  lemma QuantaOfBar()
    ensures Quantum([98]) == [Symbol(24), Symbol(32), '=', '=']
    ensures Quantum([98, 97]) == [Symbol(24), Symbol(38), Symbol(4), '=']
    ensures Quantum([98, 97, 114]) == [Symbol(24), Symbol(38), Symbol(5), Symbol(50)]
  {
    hide Symbol;
  }

  lemma Alone(src: seq<Byte>)
    requires 0 < |src| <= 3
    ensures Encode(src) == Quantum(src)
  {
  }

  /** The test vectors of section 10 of RFC 4648, as bytes: f, fo, foo, foob, fooba, foobar. */
  lemma TestVectors()
    ensures Encode([]) == "" && Encode([102]) == "Zg==" && Encode([102, 111]) == "Zm8="
    ensures Encode([102, 111, 111]) == "Zm9v"
    ensures Encode([102, 111, 111, 98]) == "Zm9v" + "Yg==" && Encode([102, 111, 111, 98, 97]) == "Zm9v" + "YmE="
    ensures Encode([102, 111, 111, 98, 97, 114]) == "Zm9v" + "YmFy"
  {
    hide Quantum, Symbol, Encode;
    Letters();
    QuantaOfFoo();
    QuantaOfBar();
    EncodeNothing();
    Alone([102]);
    Alone([102, 111]);
    Alone([102, 111, 111]);
    Alone([98]);
    Alone([98, 97]);
    Alone([98, 97, 114]);
    FirstThree(102, 111, 111, [98]);
    FirstThree(102, 111, 111, [98, 97]);
    FirstThree(102, 111, 111, [98, 97, 114]);
    assert [102, 111, 111] + [98] == [102, 111, 111, 98];
    assert [102, 111, 111] + [98, 97] == [102, 111, 111, 98, 97];
    assert [102, 111, 111] + [98, 97, 114] == [102, 111, 111, 98, 97, 114];
  }

  /** A quantum depends on its first three bytes alone. */
  lemma FirstThree(a: Byte, b: Byte, c: Byte, rest: seq<Byte>)
    requires rest != []
    ensures Encode([a, b, c] + rest) == Quantum([a, b, c]) + Encode(rest)
  {
    hide Quantum;
    assert ([a, b, c] + rest)[3..] == rest;
    QuantumOfThree(a, b, c, rest);
  }

  lemma QuantumOfThree(a: Byte, b: Byte, c: Byte, rest: seq<Byte>)
    ensures Quantum([a, b, c] + rest) == Quantum([a, b, c])
  {
    hide Symbol;
    var src := [a, b, c] + rest;
    assert src[0] == a && src[1] == b && src[2] == c;
    assert Group(src) == Group([a, b, c]);
  }

  /** Every output character is of the alphabet or a pad. */
  lemma {:induction false} EncodeAlphabet(src: seq<Byte>)
    ensures forall c | c in Encode(src) :: Value(c) < 64 || c == '='
  {
    if src != [] {
      var v := Group(src);
      SymbolValue(v / 262144 % 64);
      SymbolValue(v / 4096 % 64);
      SymbolValue(v / 64 % 64);
      SymbolValue(v % 64);
      if |src| > 3 {
        EncodeAlphabet(src[3..]);
      }
    }
  }
}
