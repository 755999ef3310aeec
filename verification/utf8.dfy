/** UTF-8, section 3 of RFC 3629, which is what a Go string and the wire hold. It links
    the two forms of white space and the two forms of trimming: on the characters of a
    string, and on the bytes of a line. */
module Utf8 {
  import opened Text
  import Wire

  type byte = Wire.byte
  type Bytes = Wire.Bytes

  /** A byte after the first of a character, with the lowest six bits of `n`. */
  function Next(n: nat): (b: byte)
    ensures 0x80 <= b <= 0xBF
  {
    (0x80 + n % 0x40) as byte
  }

  function Encode(c: char): (e: Bytes)
    ensures 1 <= |e| <= 4
  {
    var n := c as int;
    if n < 0x80 then [n as byte]
    else if n < 0x800 then [(0xC0 + n / 0x40) as byte, Next(n)]
    else if n < 0x10000 then [(0xE0 + n / 0x1000) as byte, Next(n / 0x40), Next(n)]
    else [(0xF0 + n / 0x40000) as byte, Next(n / 0x1000), Next(n / 0x40), Next(n)]
  }

  function EncodeAll(s: string): Bytes {
    if s == "" then [] else Encode(s[0]) + EncodeAll(s[1..])
  }

  lemma {:induction false} EncodeAppend(s: string, t: string)
    ensures EncodeAll(s + t) == EncodeAll(s) + EncodeAll(t)
  {
    if s == "" {
      assert s + t == t;
    } else {
      assert (s + t)[1..] == s[1..] + t;
      EncodeAppend(s[1..], t);
      Assoc(Encode(s[0]), EncodeAll(s[1..]), EncodeAll(t));
    }
  }

  lemma EncodeLast(s: string)
    requires s != ""
    ensures EncodeAll(s) == EncodeAll(s[..|s| - 1]) + Encode(s[|s| - 1])
  {
    FrontAndLast(s);
    EncodeAppend(s[..|s| - 1], [s[|s| - 1]]);
    assert [s[|s| - 1]][1..] == "";
  }

  /** The length that the limits on a server's strings count is that of their encoding. */
  lemma {:induction false} ByteLengthExactly(s: string)
    ensures ByteLength(s) == |EncodeAll(s)|
  {
    if s != "" { ByteLengthExactly(s[1..]); }
  }

  // --------------------------------------------------- one text, one encoding

  /** The first byte tells how long the encoding of a character is, and the bytes which
      character it is: what follows does not matter. */
  lemma EncodeUnique(c: char, x: Bytes, d: char, y: Bytes)
    requires Encode(c) + x == Encode(d) + y
    ensures c == d && x == y
  {
    var a, b := Encode(c), Encode(d);
    assert (a + x)[0] == a[0] && (b + y)[0] == b[0];
    assert |a| == |b|;
    forall i | 0 <= i < |a| ensures a[i] == b[i] {
      assert (a + x)[i] == (b + y)[i];
    }
    assert a == b;
    ValueExactly(c);
    ValueExactly(d);
    assert x == (a + x)[|a|..] == (b + y)[|b|..] == y;
  }

  /** The number that the payload bits of an encoding spell. */
  function Value(e: Bytes): int {
    if |e| == 1 then e[0] as int
    else if |e| == 2 then (e[0] as int - 0xC0) * 0x40 + Low(e[1])
    else if |e| == 3 then ((e[0] as int - 0xE0) * 0x40 + Low(e[1])) * 0x40 + Low(e[2])
    else if |e| == 4 then (((e[0] as int - 0xF0) * 0x40 + Low(e[1])) * 0x40 + Low(e[2])) * 0x40 + Low(e[3])
    else 0
  }

  function Low(b: byte): int {
    b as int - 0x80
  }

  lemma Digits(n: nat)
    ensures n == n / 0x40 * 0x40 + Low(Next(n))
    ensures n / 0x40 == n / 0x1000 * 0x40 + Low(Next(n / 0x40))
    ensures n / 0x1000 == n / 0x40000 * 0x40 + Low(Next(n / 0x1000))
  {
    assert n / 0x40 / 0x40 == n / 0x1000;
    assert n / 0x1000 / 0x40 == n / 0x40000;
  }

  /** Decoding undoes encoding. */
  lemma ValueExactly(c: char)
    ensures Value(Encode(c)) == c as int
  {
    Digits(c as int);
  }

  lemma {:induction false} EncodeAllUnique(s: string, t: string)
    requires EncodeAll(s) == EncodeAll(t)
    ensures s == t
  {
    if s != "" && t != "" {
      EncodeUnique(s[0], EncodeAll(s[1..]), t[0], EncodeAll(t[1..]));
      EncodeAllUnique(s[1..], t[1..]);
      assert s == [s[0]] + s[1..] && t == [t[0]] + t[1..];
    }
  }

  // ------------------------------------------------------------- white space

  /** The two lists of white space agree, at the front of a line, whatever follows. */
  lemma SpaceExactly(c: char, rest: Bytes)
    ensures Wire.SpaceWidth(Encode(c) + rest) == if IsSpace(c) then |Encode(c)| else 0
  {
  }

  /** A part of an encoding, and an encoding with bytes before it, is no white space. */
  lemma PartIsNoSpace(c: char, k: nat)
    requires 0 < k < |Encode(c)|
    ensures Wire.SpaceWidth(Encode(c)[|Encode(c)| - k..]) != k
  {
  }

  lemma MoreIsNoSpace(part: Bytes, c: char)
    requires part != []
    ensures Wire.SpaceWidth(part + Encode(c)) != |part + Encode(c)|
  {
  }

  /** What ends in an encoding, `k` bytes from its end on. */
  lemma EndOf(front: Bytes, e: Bytes, k: nat)
    requires k <= |front + e|
    ensures (front + e)[|front + e| - k..] == if k <= |e| then e[|e| - k..] else front[|front + e| - k..] + e
  {
  }

  /** The last `k` bytes are a white-space character. */
  predicate SpaceAtEnd(s: Bytes, k: nat)
    requires 1 <= k <= |s|
  {
    Wire.SpaceWidth(s[|s| - k..]) == k
  }

  lemma SpaceAtEndExactly(front: Bytes, c: char, k: nat)
    requires 1 <= k <= 3 && k <= |front + Encode(c)|
    ensures SpaceAtEnd(front + Encode(c), k) <==> IsSpace(c) && k == |Encode(c)|
  {
    var e := Encode(c);
    EndOf(front, e, k);
    if k < |e| {
      PartIsNoSpace(c, k);
    } else if k > |e| {
      MoreIsNoSpace(front[|front + e| - k..], c);
    } else {
      SpaceExactly(c, []);
      assert e + [] == e;
    }
  }

  lemma OnlySpaceAtEnd(s: Bytes, space: bool, w: nat)
    requires 1 <= w <= |s| && (space ==> w <= 3)
    requires forall k :: 1 <= k <= 3 && k <= |s| ==> (SpaceAtEnd(s, k) <==> space && k == w)
    ensures Wire.LastSpaceWidth(s) == if space then w else 0
  {
    assert SpaceAtEnd(s, 1) <==> space && w == 1;
    assert |s| >= 2 ==> (SpaceAtEnd(s, 2) <==> space && w == 2);
    assert |s| >= 3 ==> (SpaceAtEnd(s, 3) <==> space && w == 3);
  }

  lemma SpaceIsShort(c: char)
    ensures IsSpace(c) ==> |Encode(c)| <= 3
  {
  }

  /** And at its end, whatever comes before. */
  lemma LastSpaceExactly(front: Bytes, c: char)
    ensures Wire.LastSpaceWidth(front + Encode(c)) == if IsSpace(c) then |Encode(c)| else 0
  {
    var s := front + Encode(c);
    forall k | 1 <= k <= 3 && k <= |s| ensures SpaceAtEnd(s, k) <==> IsSpace(c) && k == |Encode(c)| {
      SpaceAtEndExactly(front, c, k);
    }
    SpaceIsShort(c);
    OnlySpaceAtEnd(s, IsSpace(c), |Encode(c)|);
  }

  lemma {:induction false} TrimLeftAgrees(s: string)
    ensures Wire.TrimLeft(EncodeAll(s)) == EncodeAll(TrimLeft(s))
  {
    if s != "" {
      SpaceExactly(s[0], EncodeAll(s[1..]));
      if IsSpace(s[0]) {
        assert EncodeAll(s)[|Encode(s[0])|..] == EncodeAll(s[1..]);
        TrimLeftAgrees(s[1..]);
      }
    }
  }

  lemma {:induction false} TrimRightAgrees(s: string)
    ensures Wire.TrimRight(EncodeAll(s)) == EncodeAll(TrimRight(s))
  {
    if s != "" {
      var front, c := s[..|s| - 1], s[|s| - 1];
      EncodeLast(s);
      LastSpaceExactly(EncodeAll(front), c);
      if IsSpace(c) {
        assert EncodeAll(s)[..|EncodeAll(s)| - |Encode(c)|] == EncodeAll(front);
        TrimRightAgrees(front);
      }
    }
  }

  /** Main result: to trim the bytes of a text and to trim its characters is the same. */
  lemma TrimAgrees(s: string)
    ensures Wire.TrimSpace(EncodeAll(s)) == EncodeAll(Trim(s))
  {
    TrimLeftAgrees(s);
    TrimRightAgrees(TrimLeft(s));
  }

  /** A line is blank, and not passed on, exactly when its text is. */
  lemma BlankAgrees(s: string)
    ensures Wire.Kept(EncodeAll(s)) == [] <==> Blank(s)
  {
    TrimAgrees(s);
  }
}
